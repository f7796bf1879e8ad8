/** Tool calls and their results, paired one to one by call id, and the repair
    that keeps or drops each pair as a whole. */
module Pairing {
  import opened Text
  import opened Ir

  /** Which half of which call an event is. An empty call id makes it neither. */
  datatype Half = Call(id: string) | Result(id: string) | Neither {
    function Other(): Half {
      match this
      case Call(id) => Result(id)
      case Result(id) => Call(id)
      case Neither => Neither
    }
  }

  function HalfOf(b: Body): Half {
    match b
    case ToolCall(callId, _, _, _) => if callId == "" then Neither else Call(callId)
    case ToolResult(callId, _, _, _) => if callId == "" then Neither else Result(callId)
    case _ => Neither
  }

  function Halves(events: seq<Event>): seq<Half> {
    seq(|events|, i requires 0 <= i < |events| => HalfOf(events[i].body))
  }

  /** The positions before `n` that hold `half`, in order. */
  function Positions(halves: seq<Half>, half: Half, n: nat): (positions: seq<nat>)
    requires n <= |halves|
    ensures forall k :: 0 <= k < |positions| ==> positions[k] < n && halves[positions[k]] == half
  {
    if n == 0 then []
    else Positions(halves, half, n - 1) + if halves[n - 1] == half then [n - 1] else []
  }

  function All(halves: seq<Half>, half: Half): seq<nat> {
    Positions(halves, half, |halves|)
  }

  /** How many events of the same half came before position `i`. */
  function Rank(halves: seq<Half>, i: nat): nat
    requires i < |halves|
  {
    |Positions(halves, halves[i], i)|
  }

  /** The other half of the pair: the event of the same rank on the other side. */
  function Partner(halves: seq<Half>, i: nat): (partner: Option<nat>)
    requires i < |halves|
    ensures partner.Some? ==> partner.value < |halves|
  {
    if halves[i] == Neither then None
    else
      var others := All(halves, halves[i].Other());
      if Rank(halves, i) < |others| then Some(others[Rank(halves, i)]) else None
  }

  /** What repair leaves: an event survives with its partner or not at all. */
  function Repaired(halves: seq<Half>, keep: seq<bool>): seq<bool>
    requires |halves| == |keep|
  {
    seq(|keep|, i requires 0 <= i < |keep| =>
      keep[i] && (Partner(halves, i).Some? ==> keep[Partner(halves, i).value]))
  }

  // ---------------------------------------------------------------------------
  // Positions and ranks
  // ---------------------------------------------------------------------------

  lemma {:induction false} PositionsGrow(halves: seq<Half>, half: Half, m: nat, n: nat)
    requires m <= n <= |halves|
    ensures |Positions(halves, half, m)| <= |Positions(halves, half, n)|
    ensures forall k :: 0 <= k < |Positions(halves, half, m)| ==>
              Positions(halves, half, n)[k] == Positions(halves, half, m)[k]
  {
    if m < n {
      PositionsGrow(halves, half, m, n - 1);
    }
  }

  /** An event stands at its own rank in the list of its kind. */
  lemma AtItsRank(halves: seq<Half>, i: nat)
    requires i < |halves|
    ensures Rank(halves, i) < |All(halves, halves[i])|
    ensures All(halves, halves[i])[Rank(halves, i)] == i
  {
    PositionsGrow(halves, halves[i], i + 1, |halves|);
    assert Positions(halves, halves[i], i + 1) == Positions(halves, halves[i], i) + [i];
  }

  lemma {:induction false} RankOfPosition(halves: seq<Half>, half: Half, n: nat, k: nat)
    requires n <= |halves| && k < |Positions(halves, half, n)|
    ensures Rank(halves, Positions(halves, half, n)[k]) == k
  {
    if k < |Positions(halves, half, n - 1)| {
      RankOfPosition(halves, half, n - 1, k);
    }
  }

  /** Pairs are pairs: partners are each other's, and no event is its own. */
  lemma PartnersAreMutual(halves: seq<Half>, i: nat)
    requires i < |halves| && Partner(halves, i).Some?
    ensures Partner(halves, Partner(halves, i).value) == Some(i)
    ensures Partner(halves, i).value != i
    ensures halves[Partner(halves, i).value] == halves[i].Other()
    ensures Rank(halves, Partner(halves, i).value) == Rank(halves, i)
  {
    AtItsRank(halves, i);
    RankOfPosition(halves, halves[i].Other(), |halves|, Rank(halves, i));
  }

  // ---------------------------------------------------------------------------
  // What repair achieves
  // ---------------------------------------------------------------------------

  /** The k-th call and the k-th result of every call id are kept together or
      dropped together. */
  ghost predicate PairsWhole(halves: seq<Half>, keep: seq<bool>)
    requires |halves| == |keep|
  {
    forall id, k | 0 <= k < |All(halves, Call(id))| && k < |All(halves, Result(id))| ::
      keep[All(halves, Call(id))[k]] == keep[All(halves, Result(id))[k]]
  }

  ghost predicate Subset(a: seq<bool>, b: seq<bool>) {
    |a| == |b| && forall i :: 0 <= i < |a| && a[i] ==> b[i]
  }

  lemma ZippedArePartners(halves: seq<Half>, id: string, k: nat)
    requires k < |All(halves, Call(id))| && k < |All(halves, Result(id))|
    ensures Partner(halves, All(halves, Call(id))[k]) == Some(All(halves, Result(id))[k])
    ensures Partner(halves, All(halves, Result(id))[k]) == Some(All(halves, Call(id))[k])
  {
    RankOfPosition(halves, Call(id), |halves|, k);
    RankOfPosition(halves, Result(id), |halves|, k);
  }

  lemma RepairedIsWhole(halves: seq<Half>, keep: seq<bool>)
    requires |halves| == |keep|
    ensures PairsWhole(halves, Repaired(halves, keep)) && Subset(Repaired(halves, keep), keep)
  {
    forall id, k | 0 <= k < |All(halves, Call(id))| && k < |All(halves, Result(id))|
      ensures Repaired(halves, keep)[All(halves, Call(id))[k]] == Repaired(halves, keep)[All(halves, Result(id))[k]]
    {
      ZippedArePartners(halves, id, k);
    }
  }

  lemma WholeKeepsPartners(halves: seq<Half>, keep: seq<bool>, i: nat)
    requires |halves| == |keep| && PairsWhole(halves, keep)
    requires i < |halves| && Partner(halves, i).Some?
    ensures keep[i] == keep[Partner(halves, i).value]
  {
    AtItsRank(halves, i);
    var id, k := halves[i].id, Rank(halves, i);
    assert k < |All(halves, Call(id))| && k < |All(halves, Result(id))|;
  }

  /** Repair leaves the largest choice of the kept events in which no pair is
      broken: every such choice is part of it. */
  lemma RepairedIsLargest(halves: seq<Half>, keep: seq<bool>, choice: seq<bool>)
    requires |halves| == |keep| && Subset(choice, keep) && PairsWhole(halves, choice)
    ensures Subset(choice, Repaired(halves, keep))
  {
    forall i | 0 <= i < |choice| && choice[i]
      ensures Repaired(halves, keep)[i]
    {
      if Partner(halves, i).Some? {
        WholeKeepsPartners(halves, choice, i);
      }
    }
  }

  /** Repairing twice is repairing once. */
  lemma RepairedIsStable(halves: seq<Half>, keep: seq<bool>)
    requires |halves| == |keep|
    ensures Repaired(halves, Repaired(halves, keep)) == Repaired(halves, keep)
  {
    var once := Repaired(halves, keep);
    RepairedIsWhole(halves, keep);
    RepairedIsLargest(halves, once, once);
    assert Subset(Repaired(halves, once), once);
  }

  // ---------------------------------------------------------------------------
  // The repair itself
  // ---------------------------------------------------------------------------

  function Listed(table: map<string, seq<nat>>, id: string): seq<nat> {
    if id in table then table[id] else []
  }

  /** What the tables list under `id` after `n` events: the positions of its calls
      and of its results; an id without any has no entry. */
  ghost predicate TabledAt(calls: map<string, seq<nat>>, results: map<string, seq<nat>>, halves: seq<Half>, n: nat,
                           id: string)
    requires n <= |halves|
  {
    && Listed(calls, id) == Positions(halves, Call(id), n) && (id in calls <==> Listed(calls, id) != [])
    && Listed(results, id) == Positions(halves, Result(id), n) && (id in results <==> Listed(results, id) != [])
  }

  ghost predicate Tabled(calls: map<string, seq<nat>>, results: map<string, seq<nat>>, halves: seq<Half>, n: nat)
    requires n <= |halves|
  {
    forall id :: TabledAt(calls, results, halves, n, id)
  }

  /** One more call, result, or neither. */
  lemma TabledStep(calls: map<string, seq<nat>>, results: map<string, seq<nat>>, halves: seq<Half>, n: nat)
    requires n < |halves| && Tabled(calls, results, halves, n)
    ensures
      match halves[n]
      case Call(id) => Tabled(calls[id := Listed(calls, id) + [n]], results, halves, n + 1)
      case Result(id) => Tabled(calls, results[id := Listed(results, id) + [n]], halves, n + 1)
      case Neither => Tabled(calls, results, halves, n + 1)
  {
    var half := halves[n];
    var calls' := if half.Call? then calls[half.id := Listed(calls, half.id) + [n]] else calls;
    var results' := if half.Result? then results[half.id := Listed(results, half.id) + [n]] else results;
    var m := n + 1;
    forall id
      ensures TabledAt(calls', results', halves, m, id)
    {
      assert TabledAt(calls, results, halves, n, id);
    }
  }

  /** Two empty tables. */
  method NoTables(ghost halves: seq<Half>) returns (calls: map<string, seq<nat>>, results: map<string, seq<nat>>)
    ensures Tabled(calls, results, halves, 0)
  {
    calls, results := map[], map[];
  }

  /** Enter one event in the table of its side, if it has one. */
  method Enter(calls: map<string, seq<nat>>, results: map<string, seq<nat>>, events: seq<Event>, index: nat,
               ghost halves: seq<Half>)
    returns (calls': map<string, seq<nat>>, results': map<string, seq<nat>>)
    requires halves == Halves(events) && index < |events|
    requires Tabled(calls, results, halves, index)
    ensures Tabled(calls', results', halves, index + 1)
  {
    TabledStep(calls, results, halves, index);
    calls', results' := calls, results;
    var body := events[index].body;
    assert halves[index] == HalfOf(body);
    if body.ToolCall? && body.callId != "" {
      calls' := calls[body.callId := Listed(calls, body.callId) + [index]];
    } else if body.ToolResult? && body.callId != "" {
      results' := results[body.callId := Listed(results, body.callId) + [index]];
    }
  }

  /** Collect calls and results apart, each by call id, in document order. */
  method Collect(events: seq<Event>, ghost halves: seq<Half>)
    returns (calls: map<string, seq<nat>>, results: map<string, seq<nat>>)
    requires halves == Halves(events)
    ensures Tabled(calls, results, halves, |halves|)
  {
    calls, results := NoTables(halves);
    for index := 0 to |events|
      invariant Tabled(calls, results, halves, index)
    {
      calls, results := Enter(calls, results, events, index, halves);
    }
  }

  /** The pair of event `i` has been dealt with: its id is done, or it is the id
      at hand and its rank is below `k`. */
  predicate Settled(halves: seq<Half>, i: nat, done: set<string>, id: string, k: nat)
    requires i < |halves|
  {
    halves[i] != Neither && (halves[i].id in done || (halves[i].id == id && Rank(halves, i) < k))
  }

  /** Repair so far: settled events are as repair leaves them, others as found. */
  ghost predicate RepairedSoFar(halves: seq<Half>, before: seq<bool>, now: seq<bool>, done: set<string>, id: string,
                                k: nat)
    requires |halves| == |before| == |now|
  {
    forall i :: 0 <= i < |now| ==>
      now[i] == if Settled(halves, i, done, id, k) then Repaired(halves, before)[i] else before[i]
  }

  /** One pair: if either half is gone, so is the other. */
  lemma PairSettles(halves: seq<Half>, before: seq<bool>, now: seq<bool>, done: set<string>, id: string, k: nat)
    requires |halves| == |before| == |now|
    requires id !in done
    requires k < |All(halves, Call(id))| && k < |All(halves, Result(id))|
    requires RepairedSoFar(halves, before, now, done, id, k)
    ensures
      var call, result := All(halves, Call(id))[k], All(halves, Result(id))[k];
      var both := now[call] && now[result];
      RepairedSoFar(halves, before, now[call := both][result := both], done, id, k + 1)
  {
    var call, result := All(halves, Call(id))[k], All(halves, Result(id))[k];
    RankOfPosition(halves, Call(id), |halves|, k);
    RankOfPosition(halves, Result(id), |halves|, k);
    ZippedArePartners(halves, id, k);
    var both := now[call] && now[result];
    var then_ := now[call := both][result := both];
    forall i | 0 <= i < |now|
      ensures then_[i] == if Settled(halves, i, done, id, k + 1) then Repaired(halves, before)[i] else before[i]
    {
      if halves[i] != Neither && halves[i].id == id && Rank(halves, i) == k {
        AtItsRank(halves, i);
        assert i == call || i == result;
      }
    }
  }

  /** All pairs of one id are settled once the shorter side is used up. */
  lemma IdSettles(halves: seq<Half>, before: seq<bool>, now: seq<bool>, done: set<string>, id: string, k: nat)
    requires |halves| == |before| == |now|
    requires RepairedSoFar(halves, before, now, done, id, k)
    requires k == |All(halves, Call(id))| || k == |All(halves, Result(id))|
    requires k <= |All(halves, Call(id))| && k <= |All(halves, Result(id))|
    ensures RepairedSoFar(halves, before, now, done + {id}, "", 0)
  {
    forall i | 0 <= i < |now|
      ensures now[i] == if Settled(halves, i, done + {id}, "", 0) then Repaired(halves, before)[i] else before[i]
    {
      if halves[i] != Neither && halves[i].id == id && Rank(halves, i) >= k {
        AtItsRank(halves, i);
        assert Partner(halves, i).None?;
      }
    }
  }

  lemma NothingUnsettled(halves: seq<Half>, before: seq<bool>, now: seq<bool>, done: set<string>)
    requires |halves| == |before| == |now|
    requires RepairedSoFar(halves, before, now, done, "", 0)
    requires forall id :: id !in done ==> All(halves, Call(id)) == [] || All(halves, Result(id)) == []
    ensures now == Repaired(halves, before)
  {
    forall i | 0 <= i < |now|
      ensures now[i] == Repaired(halves, before)[i]
    {
      if halves[i] != Neither && halves[i].id !in done {
        AtItsRank(halves, i);
        assert Partner(halves, i).None?;
      }
    }
  }

  /** Deal with one call id: zip its calls with its results. */
  method RepairId(calls: seq<nat>, results: seq<nat>, keep: array<bool>, id: string,
                  ghost halves: seq<Half>, ghost before: seq<bool>, ghost done: set<string>)
    requires |halves| == |before| == keep.Length && id !in done
    requires calls == All(halves, Call(id)) && results == All(halves, Result(id))
    requires RepairedSoFar(halves, before, keep[..], done, "", 0)
    modifies keep
    ensures RepairedSoFar(halves, before, keep[..], done + {id}, "", 0)
  {
    var pairs := if |calls| < |results| then |calls| else |results|;
    assert RepairedSoFar(halves, before, keep[..], done, id, 0);
    for k := 0 to pairs
      invariant RepairedSoFar(halves, before, keep[..], done, id, k)
    {
      var call, result := calls[k], results[k];
      PairSettles(halves, before, keep[..], done, id, k);
      ghost var now := keep[..];
      ghost var both := now[call] && now[result];
      if !keep[call] || !keep[result] {
        keep[call] := false;
        keep[result] := false;
      }
      assert keep[..] == now[call := both][result := both];
    }
    IdSettles(halves, before, keep[..], done, id, pairs);
  }

  /** `repair_pairing`: the call ids are visited in whatever order the table
      yields them, and the outcome does not depend on it. */
  method RepairPairing(events: seq<Event>, keep: array<bool>)
    requires keep.Length == |events|
    modifies keep
    ensures keep[..] == Repaired(Halves(events), old(keep[..]))
  {
    ghost var halves, before := Halves(events), keep[..];
    var calls, results := Collect(events, halves);
    var open := calls.Keys;
    ghost var done: set<string> := {};
    assert RepairedSoFar(halves, before, keep[..], done, "", 0);
    while open != {}
      invariant open <= calls.Keys
      invariant RepairedSoFar(halves, before, keep[..], done, "", 0)
      invariant forall id :: id in calls && id !in open && id in results ==> id in done
      invariant open !! done
      decreases open
    {
      var id :| id in open;
      assert TabledAt(calls, results, halves, |halves|, id);
      if id in results {
        RepairId(calls[id], results[id], keep, id, halves, before, done);
        done := done + {id};
      }
      open := open - {id};
    }
    forall id | id !in done
      ensures All(halves, Call(id)) == [] || All(halves, Result(id)) == []
    {
      assert TabledAt(calls, results, halves, |halves|, id);
    }
    NothingUnsettled(halves, before, keep[..], done);
  }
}
