/** What each complaint of the closure check means. */
module ClosureFindings {
  import opened Text
  import opened Lists
  import opened Ir
  import opened Closure

  /** The fate on record for an id: that of the last event to bear it. */
  ghost predicate HasFate(events: seq<Event>, id: string, slot: Slot) {
    exists i :: 0 <= i < |events| && IsLast(events, id, slot, i)
  }

  ghost predicate IsLast(events: seq<Event>, id: string, slot: Slot, i: nat)
    requires i < |events|
  {
    events[i].id == id && SlotOf(events[i]) == slot && forall j :: i < j < |events| ==> events[j].id != id
  }

  lemma {:induction false} FateOnRecord(events: seq<Event>, id: string, slot: Slot)
    ensures id in Slots(events) && Slots(events)[id] == slot <==> HasFate(events, id, slot)
  {
    if events != [] {
      var n := |events| - 1;
      FateOnRecord(events[..n], id, slot);
      if id == events[n].id {
        assert SlotOf(events[n]) == slot ==> IsLast(events, id, slot, n);
      } else {
        FateStays(events, id, slot);
      }
    }
  }

  lemma FateStays(events: seq<Event>, id: string, slot: Slot)
    requires events != [] && events[|events| - 1].id != id
    ensures HasFate(events, id, slot) <==> HasFate(events[..|events| - 1], id, slot)
  {
    var init := events[..|events| - 1];
    if i :| 0 <= i < |init| && IsLast(init, id, slot, i) {
      assert IsLast(events, id, slot, i);
    }
    if i :| 0 <= i < |events| && IsLast(events, id, slot, i) {
      assert IsLast(init, id, slot, i);
    }
  }

  /** The ids of the session, and those of them with a fate. */
  function Known(s: Session): set<string> {
    SetOf(EventIds(s.events))
  }

  ghost function WithFate(s: Session, slot: Slot): set<string> {
    set id | id in Known(s) && HasFate(s.events, id, slot)
  }

  function Replayed(plan: Plan): set<string> {
    SetOf(plan.events)
  }

  function Left(plan: Plan): set<string> {
    set k | 0 <= k < |plan.excluded| :: plan.excluded[k].id
  }

  /** Events that are markers whatever their visibility, and events of other bodies
      that were recorded for the screen or for telemetry. */
  ghost function Consumed(s: Session): set<nat> {
    set i: nat | i < |s.events| && s.events[i].body.IsHistoryDirective()
  }

  ghost function Decoration(s: Session): set<nat> {
    set i: nat | i < |s.events| && !s.events[i].body.IsHistoryDirective() &&
                 s.events[i].visibility in {Ui, Telemetry}
  }

  /** When each complaint is made, and the numbers it is made with. */
  ghost predicate Deserved(s: Session, plan: Plan, finding: Finding) {
    match finding
    case DuplicateIds(n) => n == |s.events| - |Known(s)| > 0
    case ReplayedTwice(named, distinct) => named == |plan.events| && distinct == |Replayed(plan)| < named
    case ExcludedTwice(named, distinct) => named == |plan.excluded| && distinct == |Left(plan)| < named
    case ReplayedAndExcluded(n) => n == |Replayed(plan) * Left(plan)| > 0
    case UnknownReplayed(n) => n == |Replayed(plan) - Known(s)| > 0
    case UnknownExcluded(n) => n == |Left(plan) - Known(s)| > 0
    case ChromeReplayed(n) => n == |Replayed(plan) * (WithFate(s, Chrome) + WithFate(s, Unaccounted))| > 0
    case Orphaned(n) => n == |WithFate(s, Replayable) - Replayed(plan) - Left(plan)| > 0
    case DanglingHead(head) =>
      s.liveHead == Some(head) && forall i :: 0 <= i < |s.events| ==> RecordOf(s.events[i].id) != RecordOf(head)
    case NotClosed(captured, accounted) =>
      && captured == |s.events| != accounted
      && accounted == |plan.events| + |plan.excluded| + |Consumed(s)| + |Decoration(s)|
  }

  lemma LeftIs(plan: Plan)
    ensures SetOf(ExcludedIds(plan.excluded)) == Left(plan)
  {
    assert forall k :: 0 <= k < |plan.excluded| ==> ExcludedIds(plan.excluded)[k] == plan.excluded[k].id;
  }

  lemma UnnamedIs(s: Session, ids: set<string>)
    ensures Unnamed(ids, Slots(s.events)) == ids - Known(s)
  {
    SlotsNameIds(s.events);
    assert forall id :: id in Slots(s.events) <==> id in Slots(s.events).Keys;
  }

  lemma DroppedIs(s: Session, ids: set<string>)
    ensures Dropped(ids, Slots(s.events)) == ids * (WithFate(s, Chrome) + WithFate(s, Unaccounted))
  {
    SlotsNameIds(s.events);
    forall id
      ensures id in Dropped(ids, Slots(s.events)) <==>
              id in ids && (id in WithFate(s, Chrome) || id in WithFate(s, Unaccounted))
    {
      FateOnRecord(s.events, id, Chrome);
      FateOnRecord(s.events, id, Unaccounted);
      assert id in Slots(s.events) <==> id in Slots(s.events).Keys;
    }
  }

  lemma LostIs(s: Session, replayed: set<string>, excluded: set<string>)
    ensures Lost(Slots(s.events), replayed, excluded) == WithFate(s, Replayable) - replayed - excluded
  {
    SlotsNameIds(s.events);
    forall id
      ensures id in Lost(Slots(s.events), replayed, excluded) <==>
              id in WithFate(s, Replayable) && id !in replayed && id !in excluded
    {
      FateOnRecord(s.events, id, Replayable);
      assert id in Slots(s.events) <==> id in Slots(s.events).Keys;
    }
  }

  ghost function PlacesIn(events: seq<Event>, slot: Slot): set<nat> {
    set i: nat | i < |events| && SlotOf(events[i]) == slot
  }

  lemma {:induction false} CountTo(events: seq<Event>, slot: Slot, n: nat)
    requires n <= |events|
    ensures CountIn(events[..n], slot) == |Below(PlacesIn(events, slot), n)|
  {
    BelowAll(PlacesIn(events, slot), |events|);
    if n > 0 {
      CountTo(events, slot, n - 1);
      BelowStep(PlacesIn(events, slot), n - 1);
      assert events[..n][..n - 1] == events[..n - 1];
    }
  }

  lemma CountIs(events: seq<Event>, slot: Slot)
    ensures CountIn(events, slot) == |PlacesIn(events, slot)|
  {
    CountTo(events, slot, |events|);
    BelowAll(PlacesIn(events, slot), |events|);
    assert events[..|events|] == events;
  }

  lemma AccountedIs(s: Session, plan: Plan)
    ensures Accounted(s, plan) == |plan.events| + |plan.excluded| + |Consumed(s)| + |Decoration(s)|
  {
    CountIs(s.events, Marker);
    CountIs(s.events, Chrome);
    assert PlacesIn(s.events, Marker) == Consumed(s);
    assert PlacesIn(s.events, Chrome) == Decoration(s);
  }

  lemma InSeven<T>(a: seq<T>, b: seq<T>, c: seq<T>, d: seq<T>, e: seq<T>, f: seq<T>, g: seq<T>, x: T)
    ensures x in a + b + c + d + e + f + g <==>
            x in a || x in b || x in c || x in d || x in e || x in f || x in g
  {
  }

  /** A complaint about a plan, in the terms the check computes with. */
  lemma PlanFindingWhen(plan: Plan, slots: map<string, Slot>, finding: Finding)
    ensures
      var r, x := SetOf(plan.events), SetOf(ExcludedIds(plan.excluded));
      finding in PlanFindings(plan, slots) <==>
      match finding
      case ReplayedTwice(named, distinct) => named == |plan.events| != distinct == |r|
      case ExcludedTwice(named, distinct) => named == |plan.excluded| != distinct == |x|
      case ReplayedAndExcluded(n) => n == |r * x| && r * x != {}
      case UnknownReplayed(n) => n == |Unnamed(r, slots)| > 0
      case UnknownExcluded(n) => n == |Unnamed(x, slots)| > 0
      case ChromeReplayed(n) => n == |Dropped(r, slots)| > 0
      case Orphaned(n) => n == |Lost(slots, r, x)| > 0
      case _ => false
  {
    var r, x := SetOf(plan.events), SetOf(ExcludedIds(plan.excluded));
    InSeven(If(|r| != |plan.events|, ReplayedTwice(|plan.events|, |r|)),
            If(|x| != |plan.excluded|, ExcludedTwice(|plan.excluded|, |x|)),
            If(r * x != {}, ReplayedAndExcluded(|r * x|)),
            If(|Unnamed(r, slots)| > 0, UnknownReplayed(|Unnamed(r, slots)|)),
            If(|Unnamed(x, slots)| > 0, UnknownExcluded(|Unnamed(x, slots)|)),
            If(|Dropped(r, slots)| > 0, ChromeReplayed(|Dropped(r, slots)|)),
            If(|Lost(slots, r, x)| > 0, Orphaned(|Lost(slots, r, x)|)), finding);
  }

  lemma PlanFindingIff(s: Session, plan: Plan, finding: Finding)
    ensures finding in PlanFindings(plan, Slots(s.events)) <==>
            && Deserved(s, plan, finding)
            && !finding.DuplicateIds? && !finding.DanglingHead? && !finding.NotClosed?
  {
    var replayed, excluded := Replayed(plan), Left(plan);
    PlanFindingWhen(plan, Slots(s.events), finding);
    LeftIs(plan);
    SetSize(plan.events);
    SetSize(ExcludedIds(plan.excluded));
    UnnamedIs(s, replayed);
    UnnamedIs(s, excluded);
    DroppedIs(s, replayed);
    LostIs(s, replayed, excluded);
  }

  lemma DuplicateFindingIff(s: Session, plan: Plan, finding: Finding)
    ensures finding in DuplicateFindings(s) <==> Deserved(s, plan, finding) && finding.DuplicateIds?
  {
    SlotsNameIds(s.events);
  }

  lemma HeadFindingIff(s: Session, plan: Plan, finding: Finding)
    ensures finding in HeadFindings(s) <==> Deserved(s, plan, finding) && finding.DanglingHead?
  {
    if s.liveHead.Some? {
      assert RecordOf(s.liveHead.value) in Records(s.events) <==>
             exists i :: 0 <= i < |s.events| && RecordOf(s.events[i].id) == RecordOf(s.liveHead.value);
    }
  }

  lemma BalanceFindingIff(s: Session, plan: Plan, finding: Finding)
    ensures finding in BalanceFindings(s, plan) <==> Deserved(s, plan, finding) && finding.NotClosed?
  {
    AccountedIs(s, plan);
  }

  /** A complaint is made exactly when it is deserved. */
  lemma FindingIff(s: Session, plan: Plan, finding: Finding)
    ensures finding in Findings(s, plan) <==> Deserved(s, plan, finding)
  {
    PlanFindingIff(s, plan, finding);
    DuplicateFindingIff(s, plan, finding);
    HeadFindingIff(s, plan, finding);
    BalanceFindingIff(s, plan, finding);
  }
}
