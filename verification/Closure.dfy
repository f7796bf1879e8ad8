/** Does a resolved replay account for every captured event? The closure check
    that asks, and what it means when it finds nothing. */
module Closure {
  import opened Text
  import opened Lists
  import opened Ir

  datatype Session = Session(events: seq<Event>, liveHead: Option<string>)

  datatype Reason = Superseded(marker: string) | RolledBack(marker: string) | AbandonedFork | NotModelVisible

  datatype Excluded = Excluded(id: string, reason: Reason)

  datatype Plan = Plan(events: seq<string>, excluded: seq<Excluded>, checkpoints: seq<string>)

  /** The four fates of an event under the fold of a session: content the plan must
      name, consumed, left out as chrome, or counted among the unclassified. */
  datatype Slot = Replayable | Marker | Chrome | Unaccounted

  function SlotOf(e: Event): Slot {
    if e.visibility != Model && !e.body.IsHistoryDirective() then
      if e.visibility == Unclassified then Unaccounted else Chrome
    else
      if e.body.Rollback? || e.body.Abort? || e.body.Compaction? then Marker else Replayable
  }

  /** The part of an event id before its first `#`, all of it if there is none. */
  function RecordOf(id: string): string {
    if id == "" || id[0] == '#' then "" else [id[0]] + RecordOf(id[1..])
  }

  /** A directive is a marker whatever its visibility; anything else goes by its
      visibility alone. */
  lemma SlotIff(e: Event)
    ensures SlotOf(e) == Marker <==> e.body.IsHistoryDirective()
    ensures SlotOf(e) == Replayable <==> !e.body.IsHistoryDirective() && e.visibility == Model
    ensures SlotOf(e) == Unaccounted <==> !e.body.IsHistoryDirective() && e.visibility == Unclassified
  {
  }

  /** Every block of a record names the record. */
  lemma {:induction false} RecordOfBlock(record: string, slot: string)
    requires '#' !in record
    ensures RecordOf(record) == record && RecordOf(record + "#" + slot) == record
  {
    if record != "" {
      RecordOfBlock(record[1..], slot);
      assert (record + "#" + slot)[0] == record[0] && (record + "#" + slot)[1..] == record[1..] + "#" + slot;
    }
  }

  // ---------------------------------------------------------------------------
  // Sets of ids
  // ---------------------------------------------------------------------------

  function EventIds(events: seq<Event>): seq<string> {
    seq(|events|, i requires 0 <= i < |events| => events[i].id)
  }

  function ExcludedIds(excluded: seq<Excluded>): seq<string> {
    seq(|excluded|, i requires 0 <= i < |excluded| => excluded[i].id)
  }

  /** The ids of the events in one slot. */
  function IdsIn(events: seq<Event>, slot: Slot): set<string> {
    set i | 0 <= i < |events| && SlotOf(events[i]) == slot :: events[i].id
  }

  function CountIn(events: seq<Event>, slot: Slot): nat {
    if events == [] then 0
    else CountIn(events[..|events| - 1], slot) + if SlotOf(events[|events| - 1]) == slot then 1 else 0
  }

  lemma OneMoreId(events: seq<Event>, slot: Slot)
    requires events != []
    ensures
      var n := |events| - 1;
      IdsIn(events, slot) ==
      IdsIn(events[..n], slot) + if SlotOf(events[n]) == slot then {events[n].id} else {}
  {
    var n := |events| - 1;
    forall id | id in IdsIn(events, slot)
      ensures id in IdsIn(events[..n], slot) || (SlotOf(events[n]) == slot && id == events[n].id)
    {
      var i :| 0 <= i < |events| && SlotOf(events[i]) == slot && events[i].id == id;
      assert i < n ==> events[..n][i] == events[i];
    }
    forall id | id in IdsIn(events[..n], slot)
      ensures id in IdsIn(events, slot)
    {
      var i :| 0 <= i < n && SlotOf(events[..n][i]) == slot && events[..n][i].id == id;
      assert events[i] == events[..n][i];
    }
  }

  /** With distinct ids, counting a slot's events is counting its ids. */
  lemma {:induction false} CountIsSize(events: seq<Event>, slot: Slot)
    requires NoRepeats(EventIds(events))
    ensures CountIn(events, slot) == |IdsIn(events, slot)|
  {
    if events != [] {
      var n := |events| - 1;
      assert EventIds(events)[..n] == EventIds(events[..n]);
      CountIsSize(events[..n], slot);
      OneMoreId(events, slot);
      assert events[n].id !in IdsIn(events[..n], slot) by {
        forall i | 0 <= i < n
          ensures events[..n][i].id != events[n].id
        {
          assert EventIds(events)[i] != EventIds(events)[n];
        }
      }
    }
  }

  // ---------------------------------------------------------------------------
  // The closure check
  // ---------------------------------------------------------------------------

  datatype Finding =
    | DuplicateIds(n: nat)
    | ReplayedTwice(named: nat, distinct: nat)
    | ExcludedTwice(named: nat, distinct: nat)
    | ReplayedAndExcluded(n: nat)
    | UnknownReplayed(n: nat)
    | UnknownExcluded(n: nat)
    | ChromeReplayed(n: nat)
    | Orphaned(n: nat)
    | DanglingHead(head: string)
    | NotClosed(captured: nat, accounted: nat)

  datatype Counts = Counts(captured: nat, replayed: nat, superseded: nat, rolledBack: nat, fork: nat, unclassified: nat,
                           chrome: nat, markers: nat, checkpoints: nat, closed: nat, liveHead: nat, duplicateIds: nat)

  /** The slot on record for each id: that of its last event. */
  function Slots(events: seq<Event>): map<string, Slot> {
    if events == [] then map[]
    else
      var n := |events| - 1;
      Slots(events[..n])[events[n].id := SlotOf(events[n])]
  }

  function Records(events: seq<Event>): set<string> {
    set i | 0 <= i < |events| :: RecordOf(events[i].id)
  }

  function CountReason(excluded: seq<Excluded>, reason: Reason -> bool): nat {
    if excluded == [] then 0
    else CountReason(excluded[..|excluded| - 1], reason) + if reason(excluded[|excluded| - 1].reason) then 1 else 0
  }

  function If(condition: bool, finding: Finding): seq<Finding> {
    if condition then [finding] else []
  }

  function Unnamed(ids: set<string>, slots: map<string, Slot>): set<string> {
    set id | id in ids && id !in slots
  }

  function Dropped(ids: set<string>, slots: map<string, Slot>): set<string> {
    set id | id in ids && id in slots && (slots[id] == Chrome || slots[id] == Unaccounted)
  }

  function Lost(slots: map<string, Slot>, replayed: set<string>, excluded: set<string>): set<string> {
    set id | id in slots && slots[id] == Replayable && id !in replayed && id !in excluded
  }

  function Accounted(s: Session, plan: Plan): nat {
    |plan.events| + |plan.excluded| + CountIn(s.events, Chrome) + CountIn(s.events, Marker)
  }

  /** Complaints about the ids a plan names. */
  function PlanFindings(plan: Plan, slots: map<string, Slot>): seq<Finding> {
    var replayed, excluded := SetOf(plan.events), SetOf(ExcludedIds(plan.excluded));
    If(|replayed| != |plan.events|, ReplayedTwice(|plan.events|, |replayed|))
    + If(|excluded| != |plan.excluded|, ExcludedTwice(|plan.excluded|, |excluded|))
    + If(replayed * excluded != {}, ReplayedAndExcluded(|replayed * excluded|))
    + If(|Unnamed(replayed, slots)| > 0, UnknownReplayed(|Unnamed(replayed, slots)|))
    + If(|Unnamed(excluded, slots)| > 0, UnknownExcluded(|Unnamed(excluded, slots)|))
    + If(|Dropped(replayed, slots)| > 0, ChromeReplayed(|Dropped(replayed, slots)|))
    + If(|Lost(slots, replayed, excluded)| > 0, Orphaned(|Lost(slots, replayed, excluded)|))
  }

  function DuplicateFindings(s: Session): seq<Finding> {
    var slots := |Slots(s.events)|;
    if slots < |s.events| then [DuplicateIds(|s.events| - slots)] else []
  }

  function HeadFindings(s: Session): seq<Finding> {
    if s.liveHead.Some? && RecordOf(s.liveHead.value) !in Records(s.events)
    then [DanglingHead(s.liveHead.value)] else []
  }

  function BalanceFindings(s: Session, plan: Plan): seq<Finding> {
    If(Accounted(s, plan) != |s.events|, NotClosed(|s.events|, Accounted(s, plan)))
  }

  /** The report on one session: duplicates, the plan, the head, the balance. */
  function Findings(s: Session, plan: Plan): seq<Finding> {
    DuplicateFindings(s) + PlanFindings(plan, Slots(s.events)) + HeadFindings(s) + BalanceFindings(s, plan)
  }

  lemma {:induction false} SlotsNameIds(events: seq<Event>)
    ensures Slots(events).Keys == SetOf(EventIds(events))
    ensures |Slots(events)| <= |events|
    ensures |Slots(events)| == |events| <==> NoRepeats(EventIds(events))
  {
    SetSize(EventIds(events));
    if events != [] {
      var n := |events| - 1;
      SlotsNameIds(events[..n]);
      assert EventIds(events) == EventIds(events[..n]) + [events[n].id];
    }
  }

  /** The first loop: one pass over the capture. */
  method Survey(events: seq<Event>)
    returns (slots: map<string, Slot>, records: set<string>, markers: nat, chrome: nat, duplicates: nat)
    ensures slots == Slots(events) && records == Records(events)
    ensures markers == CountIn(events, Marker) && chrome == CountIn(events, Chrome)
    ensures duplicates + |slots| == |events|
  {
    slots, records, markers, chrome, duplicates := map[], {}, 0, 0, 0;
    for k := 0 to |events|
      invariant slots == Slots(events[..k]) && records == Records(events[..k])
      invariant markers == CountIn(events[..k], Marker) && chrome == CountIn(events[..k], Chrome)
      invariant duplicates + |slots| == k
    {
      var e := events[k];
      assert events[..k + 1] == events[..k] + [e];
      match SlotOf(e) {
        case Marker => markers := markers + 1;
        case Chrome => chrome := chrome + 1;
        case Replayable =>
        case Unaccounted =>
      }
      if e.id in slots {
        duplicates := duplicates + 1;
      }
      slots := slots[e.id := SlotOf(e)];
      OneMoreRecord(events[..k], e);
      records := records + {RecordOf(e.id)};
    }
    assert events[..|events|] == events;
  }

  lemma OneMoreRecord(events: seq<Event>, e: Event)
    ensures Records(events + [e]) == Records(events) + {RecordOf(e.id)}
  {
    var all := events + [e];
    assert all[|events|] == e;
    forall r | r in Records(events)
      ensures r in Records(all)
    {
      var i :| 0 <= i < |events| && RecordOf(events[i].id) == r;
      assert all[i] == events[i];
    }
  }

  /** The second loop: why each exclusion was made. */
  method Tally(excluded: seq<Excluded>) returns (superseded: nat, rolledBack: nat, fork: nat, unclassified: nat)
    ensures superseded + rolledBack + fork + unclassified == |excluded|
    ensures superseded == CountReason(excluded, (r: Reason) => r.Superseded?)
    ensures rolledBack == CountReason(excluded, (r: Reason) => r.RolledBack?)
    ensures fork == CountReason(excluded, (r: Reason) => r.AbandonedFork?)
    ensures unclassified == CountReason(excluded, (r: Reason) => r.NotModelVisible?)
  {
    superseded, rolledBack, fork, unclassified := 0, 0, 0, 0;
    for k := 0 to |excluded|
      invariant superseded + rolledBack + fork + unclassified == k
      invariant superseded == CountReason(excluded[..k], (r: Reason) => r.Superseded?)
      invariant rolledBack == CountReason(excluded[..k], (r: Reason) => r.RolledBack?)
      invariant fork == CountReason(excluded[..k], (r: Reason) => r.AbandonedFork?)
      invariant unclassified == CountReason(excluded[..k], (r: Reason) => r.NotModelVisible?)
    {
      assert excluded[..k + 1][..k] == excluded[..k];
      match excluded[k].reason {
        case Superseded(_) => superseded := superseded + 1;
        case RolledBack(_) => rolledBack := rolledBack + 1;
        case AbandonedFork => fork := fork + 1;
        case NotModelVisible => unclassified := unclassified + 1;
      }
    }
    assert excluded[..|excluded|] == excluded;
  }

  /** `report.finding`, when there is something to report. */
  method Complain(findings: seq<Finding>, condition: bool, finding: Finding) returns (findings': seq<Finding>)
    ensures findings' == findings + If(condition, finding)
  {
    findings' := findings;
    if condition {
      findings' := findings' + [finding];
    }
  }

  /** The checks on the ids the plan names. */
  method CheckPlan(plan: Plan, slots: map<string, Slot>) returns (findings: seq<Finding>)
    ensures findings == PlanFindings(plan, slots)
  {
    var replayed, excluded := SetOf(plan.events), SetOf(ExcludedIds(plan.excluded));
    var both := |replayed * excluded|;
    var unknown, unheard := |Unnamed(replayed, slots)|, |Unnamed(excluded, slots)|;
    var shown, lost := |Dropped(replayed, slots)|, |Lost(slots, replayed, excluded)|;
    findings := If(|replayed| != |plan.events|, ReplayedTwice(|plan.events|, |replayed|));
    findings := Complain(findings, |excluded| != |plan.excluded|, ExcludedTwice(|plan.excluded|, |excluded|));
    findings := Complain(findings, replayed * excluded != {}, ReplayedAndExcluded(both));
    findings := Complain(findings, unknown > 0, UnknownReplayed(unknown));
    findings := Complain(findings, unheard > 0, UnknownExcluded(unheard));
    findings := Complain(findings, shown > 0, ChromeReplayed(shown));
    findings := Complain(findings, lost > 0, Orphaned(lost));
  }

  method CheckHead(s: Session, records: set<string>) returns (findings: seq<Finding>, liveHead: nat)
    requires records == Records(s.events)
    ensures findings == HeadFindings(s) && liveHead == if s.liveHead.Some? then 1 else 0
  {
    findings, liveHead := [], 0;
    if s.liveHead.Some? {
      liveHead := 1;
      if RecordOf(s.liveHead.value) !in records {
        findings := [DanglingHead(s.liveHead.value)];
      }
    }
  }

  method CheckDuplicates(s: Session, duplicates: nat) returns (findings: seq<Finding>)
    requires duplicates + |Slots(s.events)| == |s.events|
    ensures findings == DuplicateFindings(s)
  {
    findings := If(duplicates > 0, DuplicateIds(duplicates));
  }

  method CheckBalance(s: Session, plan: Plan, accounted: nat) returns (findings: seq<Finding>, closed: nat)
    requires accounted == Accounted(s, plan)
    ensures findings == BalanceFindings(s, plan)
    ensures closed == if Accounted(s, plan) == |s.events| then 1 else 0
  {
    findings := If(accounted != |s.events|, NotClosed(|s.events|, accounted));
    closed := if accounted == |s.events| then 1 else 0;
  }

  /** `invariants`: every complaint, and the accounting it rests on. */
  method Invariants(s: Session, plan: Plan) returns (counts: Counts, findings: seq<Finding>)
    ensures findings == Findings(s, plan)
    ensures counts.captured == |s.events| && counts.replayed == |plan.events|
    ensures counts.superseded == CountReason(plan.excluded, (r: Reason) => r.Superseded?)
    ensures counts.rolledBack == CountReason(plan.excluded, (r: Reason) => r.RolledBack?)
    ensures counts.fork == CountReason(plan.excluded, (r: Reason) => r.AbandonedFork?)
    ensures counts.unclassified == CountReason(plan.excluded, (r: Reason) => r.NotModelVisible?)
    ensures counts.superseded + counts.rolledBack + counts.fork + counts.unclassified == |plan.excluded|
    ensures counts.checkpoints == |plan.checkpoints| && counts.liveHead == if s.liveHead.Some? then 1 else 0
    ensures counts.chrome == CountIn(s.events, Chrome) && counts.markers == CountIn(s.events, Marker)
    ensures counts.closed == if Accounted(s, plan) == |s.events| then 1 else 0
    ensures counts.duplicateIds + |Slots(s.events)| == |s.events|
  {
    var slots, records, markers, chrome, duplicates := Survey(s.events);
    var repeats := CheckDuplicates(s, duplicates);
    var superseded, rolledBack, fork, unclassified := Tally(plan.excluded);
    var misnamed := CheckPlan(plan, slots);
    var dangling, liveHead := CheckHead(s, records);
    var accounted := |plan.events| + superseded + rolledBack + fork + unclassified + chrome + markers;
    var open, closed := CheckBalance(s, plan, accounted);
    findings := repeats + misnamed + dangling + open;
    counts := Counts(|s.events|, |plan.events|, superseded, rolledBack, fork, unclassified, chrome, markers,
                     |plan.checkpoints|, closed, liveHead, duplicates);
  }

  // ---------------------------------------------------------------------------
  // What a finding-free run certifies
  // ---------------------------------------------------------------------------

  /** Everything the plan names. */
  function Named(plan: Plan): set<string> {
    SetOf(plan.events) + SetOf(ExcludedIds(plan.excluded))
  }

  /** The plan accounts for the session: it names captured events only, each once
      and in one place, replays nothing the model did not see, leaves no ordinary
      content out, and the books balance. */
  ghost predicate Accounts(s: Session, plan: Plan) {
    && NoRepeats(EventIds(s.events))
    && NoRepeats(plan.events)
    && NoRepeats(ExcludedIds(plan.excluded))
    && SetOf(plan.events) !! SetOf(ExcludedIds(plan.excluded))
    && Named(plan) <= SetOf(EventIds(s.events))
    && SetOf(plan.events) !! IdsIn(s.events, Chrome) + IdsIn(s.events, Unaccounted)
    && IdsIn(s.events, Replayable) <= Named(plan)
    && (s.liveHead.Some? ==> RecordOf(s.liveHead.value) in Records(s.events))
    && Accounted(s, plan) == |s.events|
  }

  lemma DistinctBefore(events: seq<Event>)
    requires events != [] && NoRepeats(EventIds(events))
    ensures NoRepeats(EventIds(events[..|events| - 1]))
    ensures events[|events| - 1].id !in EventIds(events[..|events| - 1])
  {
    var ids, init := EventIds(events), EventIds(events[..|events| - 1]);
    assert forall i :: 0 <= i < |init| ==> init[i] == ids[i];
    assert forall i :: 0 <= i < |init| ==> ids[i] != ids[|init|];
  }

  lemma {:induction false} SlotIsOnRecord(events: seq<Event>, id: string, slot: Slot)
    requires NoRepeats(EventIds(events))
    ensures id in IdsIn(events, slot) <==> id in Slots(events) && Slots(events)[id] == slot
  {
    if events != [] {
      var n := |events| - 1;
      DistinctBefore(events);
      SlotIsOnRecord(events[..n], id, slot);
      OneMoreId(events, slot);
      SlotsNameIds(events[..n]);
      assert events[n].id !in Slots(events[..n]);
    }
  }

  lemma NoneNamedIff(ids: set<string>, events: seq<Event>)
    ensures |Unnamed(ids, Slots(events))| == 0 <==> ids <= SetOf(EventIds(events))
  {
    SlotsNameIds(events);
    assert forall id :: id in Slots(events) <==> id in SetOf(EventIds(events));
    if ids <= SetOf(EventIds(events)) {
      assert forall id :: id !in Unnamed(ids, Slots(events));
    } else {
      var id :| id in ids && id !in SetOf(EventIds(events));
      assert id in Unnamed(ids, Slots(events));
    }
  }

  lemma NoneDroppedIff(ids: set<string>, events: seq<Event>)
    requires NoRepeats(EventIds(events))
    ensures |Dropped(ids, Slots(events))| == 0 <==> ids !! IdsIn(events, Chrome) + IdsIn(events, Unaccounted)
  {
    forall id
      ensures id in Dropped(ids, Slots(events)) <==>
              id in ids && id in IdsIn(events, Chrome) + IdsIn(events, Unaccounted)
    {
      SlotIsOnRecord(events, id, Chrome);
      SlotIsOnRecord(events, id, Unaccounted);
    }
  }

  lemma NoneLostIff(events: seq<Event>, replayed: set<string>, excluded: set<string>)
    requires NoRepeats(EventIds(events))
    ensures |Lost(Slots(events), replayed, excluded)| == 0 <==> IdsIn(events, Replayable) <= replayed + excluded
  {
    forall id
      ensures id in Lost(Slots(events), replayed, excluded) <==>
              id in IdsIn(events, Replayable) && id !in replayed + excluded
    {
      SlotIsOnRecord(events, id, Replayable);
    }
  }

  lemma PlanIsFineIff(s: Session, plan: Plan)
    requires NoRepeats(EventIds(s.events))
    ensures PlanFindings(plan, Slots(s.events)) == [] <==>
            && NoRepeats(plan.events) && NoRepeats(ExcludedIds(plan.excluded))
            && SetOf(plan.events) !! SetOf(ExcludedIds(plan.excluded))
            && Named(plan) <= SetOf(EventIds(s.events))
            && SetOf(plan.events) !! IdsIn(s.events, Chrome) + IdsIn(s.events, Unaccounted)
            && IdsIn(s.events, Replayable) <= Named(plan)
  {
    var replayed, excluded := SetOf(plan.events), SetOf(ExcludedIds(plan.excluded));
    SetSize(plan.events);
    SetSize(ExcludedIds(plan.excluded));
    NoneNamedIff(replayed, s.events);
    NoneNamedIff(excluded, s.events);
    NoneDroppedIff(replayed, s.events);
    NoneLostIff(s.events, replayed, excluded);
    assert Named(plan) <= SetOf(EventIds(s.events)) <==>
           replayed <= SetOf(EventIds(s.events)) && excluded <= SetOf(EventIds(s.events));
  }

  /** The closure check finds nothing exactly when the plan accounts for the session. */
  lemma FindingFreeIff(s: Session, plan: Plan)
    ensures Findings(s, plan) == [] <==> Accounts(s, plan)
  {
    SlotsNameIds(s.events);
    if NoRepeats(EventIds(s.events)) {
      PlanIsFineIff(s, plan);
    }
  }

  /** Every id is in exactly one of the four slots. */
  lemma OneSlotEach(events: seq<Event>, id: string)
    requires NoRepeats(EventIds(events))
    ensures
      var r, m := IdsIn(events, Replayable), IdsIn(events, Marker);
      var c, u := IdsIn(events, Chrome), IdsIn(events, Unaccounted);
      && (id in SetOf(EventIds(events)) <==> id in r || id in m || id in c || id in u)
      && (id in r ==> id !in m && id !in c && id !in u)
      && (id in m ==> id !in c && id !in u)
      && (id in c ==> id !in u)
  {
    SlotsNameIds(events);
    SlotIsOnRecord(events, id, Replayable);
    SlotIsOnRecord(events, id, Marker);
    SlotIsOnRecord(events, id, Chrome);
    SlotIsOnRecord(events, id, Unaccounted);
  }

  /** Four disjoint sets, and together all the ids. */
  ghost predicate Partition(all: set<string>, r: set<string>, m: set<string>, c: set<string>, u: set<string>) {
    r !! m !! c !! u && all == r + m + c + u
  }

  lemma SlotsPartition(events: seq<Event>)
    requires NoRepeats(EventIds(events))
    ensures Partition(SetOf(EventIds(events)), IdsIn(events, Replayable), IdsIn(events, Marker),
                      IdsIn(events, Chrome), IdsIn(events, Unaccounted))
  {
    forall id
      ensures
        var r, m := IdsIn(events, Replayable), IdsIn(events, Marker);
        var c, u := IdsIn(events, Chrome), IdsIn(events, Unaccounted);
        && (id in SetOf(EventIds(events)) <==> id in r || id in m || id in c || id in u)
        && (id in r ==> id !in m && id !in c && id !in u)
        && (id in m ==> id !in c && id !in u)
        && (id in c ==> id !in u)
    {
      OneSlotEach(events, id);
    }
  }

  /** What the balance comes to: exactly as many ids that are not ordinary content
      are named as there are events the session could not classify. */
  lemma NamedOthersCount(s: Session, plan: Plan)
    requires Accounts(s, plan)
    ensures |Named(plan) - IdsIn(s.events, Replayable)| == |IdsIn(s.events, Unaccounted)|
  {
    SetSize(plan.events);
    SetSize(ExcludedIds(plan.excluded));
    SetSize(EventIds(s.events));
    SlotsPartition(s.events);
    CountIsSize(s.events, Chrome);
    CountIsSize(s.events, Marker);
  }

  lemma SameSizeSubset(a: set<string>, b: set<string>)
    requires a <= b && |a| == |b|
    ensures a == b
  {
    assert b == a + (b - a);
  }

  lemma NamedSplit(named: set<string>, r: set<string>, m: set<string>, c: set<string>, u: set<string>)
    requires r !! m !! c !! u && r <= named <= r + m + c + u
    requires |named - r| == |u|
    ensures named == r + u <==> named !! m + c
  {
    if named !! m + c {
      SameSizeSubset(named - r, u);
      assert named == r + (named - r);
    }
  }

  /** A finding-free session splits exactly into replayed, excluded, markers and
      chrome if and only if its plan names no marker and no chrome. */
  lemma SplitsExactlyIff(s: Session, plan: Plan)
    requires Findings(s, plan) == []
    ensures Named(plan) == IdsIn(s.events, Replayable) + IdsIn(s.events, Unaccounted) <==>
            Named(plan) !! IdsIn(s.events, Marker) + IdsIn(s.events, Chrome)
  {
    FindingFreeIff(s, plan);
    SlotsPartition(s.events);
    NamedOthersCount(s, plan);
    NamedSplit(Named(plan), IdsIn(s.events, Replayable), IdsIn(s.events, Marker), IdsIn(s.events, Chrome),
               IdsIn(s.events, Unaccounted));
  }

  lemma TwoEvents(marker: Event, other: Event)
    requires SlotOf(marker) == Marker && SlotOf(other) == Unaccounted
    ensures CountIn([marker, other], Marker) == 1 && CountIn([marker, other], Chrome) == 0
    ensures IdsIn([marker, other], Replayable) == {} && other.id in IdsIn([marker, other], Unaccounted)
  {
    var both, one := [marker, other], [marker];
    assert both[..1] == one && one[..0] == [] && both[1] == other && one[0] == marker;
    assert CountIn(one, Marker) == CountIn([], Marker) + 1;
    assert CountIn(both, Marker) == CountIn(one, Marker);
    assert CountIn(one, Chrome) == CountIn([], Chrome);
    assert CountIn(both, Chrome) == CountIn(one, Chrome);
  }

  lemma TwoIds(marker: Event, other: Event, plan: Plan)
    requires marker.id != other.id && plan == Plan([], [Excluded(marker.id, NotModelVisible)], [])
    ensures NoRepeats(EventIds([marker, other])) && NoRepeats(ExcludedIds(plan.excluded))
    ensures SetOf(EventIds([marker, other])) == {marker.id, other.id} && Named(plan) == {marker.id}
  {
    assert EventIds([marker, other]) == [marker.id, other.id];
    assert ExcludedIds(plan.excluded) == [marker.id];
  }

  /** Finding nothing does not say that: when the one event nobody could classify
      is not excluded, and a marker is in its place, the books balance. */
  lemma WrongExclusionPasses(marker: Event, other: Event)
    requires SlotOf(marker) == Marker && SlotOf(other) == Unaccounted && marker.id != other.id
    ensures
      var s, plan := Session([marker, other], None), Plan([], [Excluded(marker.id, NotModelVisible)], []);
      && Findings(s, plan) == []
      && other.id in IdsIn(s.events, Unaccounted) && other.id !in Named(plan)
  {
    var s, plan := Session([marker, other], None), Plan([], [Excluded(marker.id, NotModelVisible)], []);
    TwoEvents(marker, other);
    TwoIds(marker, other, plan);
    FindingFreeIff(s, plan);
  }
}
