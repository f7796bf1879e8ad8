/** The cap in bytes: what the printed lengths and the sealed bytes of a fitted
    replay come to, and what they may come to for an event to stay. */
module BudgetBytes {
  import opened Text
  import opened Ir
  import opened Sums
  import opened Pairing
  import opened Budget
  import opened BudgetProofs

  function SealedLengths(capsules: seq<Capsule>): seq<nat> {
    seq(|capsules|, j requires 0 <= j < |capsules| => ByteLen(capsules[j].sealed))
  }

  /** What an event takes up: its printed body and every capsule on it. */
  function Taken(size: Measure, e: Event): nat {
    size(e.body) + Total(SealedLengths(e.capsules), |e.capsules|)
  }

  function TakenByAll(size: Measure, events: seq<Event>): nat {
    Total(seq(|events|, i requires 0 <= i < |events| => Taken(size, events[i])), |events|)
  }

  lemma {:induction false} SealedBytesAre(capsules: seq<Capsule>)
    ensures SealedBytes(capsules) == Total(SealedLengths(capsules), |capsules|)
  {
    if capsules != [] {
      var n := |capsules| - 1;
      SealedBytesAre(capsules[..n]);
      TotalPrefix(SealedLengths(capsules[..n]), SealedLengths(capsules), n);
    }
  }

  /** A token is four bytes, and every event has one to itself. */
  lemma ChargeIs(size: Measure, e: Event)
    ensures Taken(size, e) < 4 * Tokens(size, e) <= Taken(size, e) + 4
  {
    SealedBytesAre(e.capsules);
  }

  lemma TakenByMore(size: Measure, events: seq<Event>, e: Event)
    ensures TakenByAll(size, events + [e]) == TakenByAll(size, events) + Taken(size, e)
  {
    var all := events + [e];
    TotalPrefix(seq(|events|, i requires 0 <= i < |events| => Taken(size, events[i])),
                seq(|all|, i requires 0 <= i < |all| => Taken(size, all[i])), |events|);
  }

  lemma {:induction false} CostInBytes(size: Measure, events: seq<Event>)
    ensures TakenByAll(size, events) + |events| <= 4 * Cost(size, events) <= TakenByAll(size, events) + 4 * |events|
  {
    if events != [] {
      var n := |events| - 1;
      assert events == events[..n] + [events[n]];
      CostInBytes(size, events[..n]);
      TakenByMore(size, events[..n], events[n]);
      CostStep(size, events[..n], events[n]);
      ChargeIs(size, events[n]);
    }
  }

  /** A fitted replay takes up less than four bytes for each token of the cap, or it
      is the newest event alone. */
  lemma FittedInBytes(b: ContextBudget, size: Measure, events: seq<Event>)
    requires b.maxContextTokens > 0
    ensures
      var fitted := Applied(b, size, events).events;
      TakenByAll(size, fitted) + |fitted| <= 4 * b.maxContextTokens ||
      exists i :: 0 <= i < |events| && Newest(Live(b, events), i) && fitted == [Staged(b, events)[i]]
  {
    FittedIsWithinCap(b, size, events);
    CostInBytes(size, Applied(b, size, events).events);
  }

  /** The live events from position `i` to the newest. */
  function Run(events: seq<Event>, live: seq<bool>, i: nat): seq<Event>
    requires |events| == |live| && i <= |live|
    decreases |live| - i
  {
    if i == |live| then [] else (if live[i] then [events[i]] else []) + Run(events, live, i + 1)
  }

  lemma {:induction false} TakenByBoth(size: Measure, a: seq<Event>, b: seq<Event>)
    ensures TakenByAll(size, a + b) == TakenByAll(size, a) + TakenByAll(size, b)
  {
    if b == [] {
      assert a + b == a;
    } else {
      var n := |b| - 1;
      assert a + b == (a + b[..n]) + [b[n]] && b == b[..n] + [b[n]];
      TakenByBoth(size, a, b[..n]);
      TakenByMore(size, a + b[..n], b[n]);
      TakenByMore(size, b[..n], b[n]);
    }
  }

  lemma {:induction false} RunInBytes(size: Measure, events: seq<Event>, live: seq<bool>, i: nat)
    requires |events| == |live| && i <= |live|
    ensures
      var run, cost := Run(events, live, i), CostFrom(Costs(size, events), live, i);
      TakenByAll(size, run) + |run| <= 4 * cost <= TakenByAll(size, run) + 4 * |run|
    decreases |live| - i
  {
    if i < |live| {
      RunInBytes(size, events, live, i + 1);
      if live[i] {
        TakenByBoth(size, [events[i]], Run(events, live, i + 1));
        TakenByMore(size, [], events[i]);
        assert [] + [events[i]] == [events[i]];
        ChargeIs(size, events[i]);
      } else {
        assert Run(events, live, i) == Run(events, live, i + 1);
      }
    }
  }

  /** Whether an event stays, in bytes. It does when its pair and everything live
      after it, with four bytes for each, come to four times the cap; and when it
      does, with one byte for each they come to no more, unless it is the newest and
      stands alone. */
  lemma KeptInBytes(b: ContextBudget, size: Measure, events: seq<Event>, i: nat)
    requires b.maxContextTokens > 0 && i < |events| && Live(b, events)[i]
    ensures
      var run := Run(Staged(b, events), Live(b, events), Earlier(Halves(events), i));
      && (TakenByAll(size, run) + 4 * |run| <= 4 * b.maxContextTokens ==> Kept(b, size, events)[i])
      && (Kept(b, size, events)[i] && !NewestAlone(b, events, i) ==>
            TakenByAll(size, run) + |run| <= 4 * b.maxContextTokens)
  {
    KeptIff(b, size, events, i);
    RunInBytes(size, Staged(b, events), Live(b, events), Earlier(Halves(events), i));
  }

  /** Before repair, any run of newest events stays that comes to four times the cap
      with four bytes for each. */
  lemma RunSurvivesCut(b: ContextBudget, size: Measure, events: seq<Event>, from: nat)
    requires b.maxContextTokens > 0 && from <= |events|
    requires
      var run := Run(Staged(b, events), Live(b, events), from);
      TakenByAll(size, run) + 4 * |run| <= 4 * b.maxContextTokens
    ensures forall i :: from <= i < |events| && Live(b, events)[i] ==> Capped(b, size, events)[i]
  {
    RunInBytes(size, Staged(b, events), Live(b, events), from);
    CutIsLongest(Costs(size, Staged(b, events)), Live(b, events), b.maxContextTokens, from);
  }

  /** A message, and reasoning with sealed text beside it. */
  function Beside(capsules: seq<Capsule>): seq<Event> {
    [Event("", Model, Message(User, []), []), Event("", Model, Reasoning(None, []), capsules)]
  }

  /** Sealed bytes count: four hundred of them on the newest event push out a message
      that stays without them. */
  lemma CapsuleCrowdsOut(cap: Capsule)
    requires ByteLen(cap.sealed) == 400
    ensures
      var b, size := ContextBudget(30, 0, true), (_: Body) => 40;
      && Kept(b, size, Beside([cap])) == [false, true]
      && Kept(b, size, Beside([])) == [true, true]
  {
    var b, size := ContextBudget(30, 0, true), (_: Body) => 40;
    assert SealedBytes([cap]) == SealedBytes([]) + 400 by {
      assert [cap][..0] == [];
    }
    TwoUnpaired(b, size, Beside([cap]));
    TwoUnpaired(b, size, Beside([]));
  }

  lemma TwoUnpaired(b: ContextBudget, size: Measure, events: seq<Event>)
    requires |events| == 2 && b.keepReasoning && b.maxToolOutput == 0 && b.maxContextTokens > 0
    requires events[0].body.Message? && events[1].body.Reasoning?
    ensures Kept(b, size, events) ==
            [Tokens(size, events[0]) + Tokens(size, events[1]) <= b.maxContextTokens, true]
  {
    assert Halves(events)[0] == Neither && Halves(events)[1] == Neither;
    TwoCosts(b, size, events);
    KeptIff(b, size, events, 0);
    KeptIff(b, size, events, 1);
    assert Live(b, events)[1];
  }
}
