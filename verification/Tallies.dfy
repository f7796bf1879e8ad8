/** Keyed tallies kept in a list and searched by position, as the comparator
    keeps its findings, and what such a list means for a log of findings. */
module Tallies {
  import opened Text

  datatype Tally = Tally(events: nat, capsules: nat, bytes: nat)

  const NOTHING := Tally(0, 0, 0)

  /** One finding: what it is filed under and the sealed material it adds. */
  datatype Mark<K> = Mark(key: K, capsules: nat, bytes: nat)

  predicate Mentions<K(==)>(marks: seq<Mark<K>>, key: K) {
    exists m | m in marks :: m.key == key
  }

  function Capsules<K(==)>(marks: seq<Mark<K>>, key: K): nat {
    if marks == [] then 0
    else
      var m := marks[|marks| - 1];
      Capsules(marks[..|marks| - 1], key) + if m.key == key then m.capsules else 0
  }

  function Bytes<K(==)>(marks: seq<Mark<K>>, key: K): nat {
    if marks == [] then 0
    else
      var m := marks[|marks| - 1];
      Bytes(marks[..|marks| - 1], key) + if m.key == key then m.bytes else 0
  }

  /** What the findings of one event add under `key`: one event at most. */
  function OneEvent<K(==)>(t: Tally, marks: seq<Mark<K>>, key: K): Tally {
    Tally(t.events + (if Mentions(marks, key) then 1 else 0),
          t.capsules + Capsules(marks, key),
          t.bytes + Bytes(marks, key))
  }

  /** The tally of a whole log, one list of findings for each event. */
  function Totals<K(==)>(log: seq<seq<Mark<K>>>, key: K): Tally {
    if log == [] then NOTHING
    else OneEvent(Totals(log[..|log| - 1], key), log[|log| - 1], key)
  }

  lemma OneMoreMark<K>(t: Tally, marks: seq<Mark<K>>, m: Mark<K>, key: K)
    ensures OneEvent(t, marks + [m], key) ==
            if m.key != key then OneEvent(t, marks, key)
            else
              var u := OneEvent(t, marks, key);
              Tally(u.events + (if Mentions(marks, key) then 0 else 1), u.capsules + m.capsules, u.bytes + m.bytes)
  {
    assert (marks + [m])[..|marks|] == marks;
    if m.key == key {
      assert m in marks + [m];
    } else {
      assert forall x :: x in marks + [m] && x.key == key ==> x in marks;
      assert forall x :: x in marks ==> x in marks + [m];
    }
  }

  // ---------------------------------------------------------------------------
  // The list
  // ---------------------------------------------------------------------------

  datatype Entry<K> = Entry(key: K, tally: Tally, lastEvent: Option<nat>)

  ghost predicate Distinct<K>(entries: seq<Entry<K>>) {
    forall i, j :: 0 <= i < j < |entries| ==> entries[i].key != entries[j].key
  }

  function Lookup<K(==)>(entries: seq<Entry<K>>, key: K): Option<Entry<K>> {
    if entries == [] then None
    else if entries[0].key == key then Some(entries[0])
    else Lookup(entries[1..], key)
  }

  function TallyIn<K(==)>(entries: seq<Entry<K>>, key: K): Tally {
    var found := Lookup(entries, key);
    if found.Some? then found.value.tally else NOTHING
  }

  lemma {:induction false} LookupAt<K>(entries: seq<Entry<K>>, i: nat)
    requires i < |entries| && Distinct(entries)
    ensures Lookup(entries, entries[i].key) == Some(entries[i])
  {
    if i > 0 {
      LookupAt(entries[1..], i - 1);
    }
  }

  lemma {:induction false} LookupFresh<K>(entries: seq<Entry<K>>, key: K)
    requires forall i :: 0 <= i < |entries| ==> entries[i].key != key
    ensures Lookup(entries, key) == None
  {
    if entries != [] {
      LookupFresh(entries[1..], key);
    }
  }

  lemma {:induction false} LookupPush<K>(entries: seq<Entry<K>>, e: Entry<K>, key: K)
    ensures Lookup(entries + [e], key) ==
            if Lookup(entries, key).Some? then Lookup(entries, key)
            else if e.key == key then Some(e) else None
  {
    if entries != [] {
      assert (entries + [e])[1..] == entries[1..] + [e];
      LookupPush(entries[1..], e, key);
    }
  }

  lemma {:induction false} LookupUpdate<K>(entries: seq<Entry<K>>, i: nat, e: Entry<K>, key: K)
    requires i < |entries| && Distinct(entries) && e.key == entries[i].key
    ensures Distinct(entries[i := e])
    ensures Lookup(entries[i := e], key) == if key == e.key then Some(e) else Lookup(entries, key)
  {
    if i > 0 {
      assert entries[i := e][1..] == entries[1..][i - 1 := e];
      LookupUpdate(entries[1..], i - 1, e, key);
    } else {
      assert entries[i := e][1..] == entries[1..];
    }
  }

  /** Find the entry for `key`, or push an empty one. */
  method Slot<K(!new, ==)>(entries: seq<Entry<K>>, key: K) returns (grown: seq<Entry<K>>, index: nat)
    requires Distinct(entries)
    ensures Distinct(grown)
    ensures index < |grown| && grown[index].key == key
    ensures grown[index].tally == TallyIn(entries, key)
    ensures grown[index].lastEvent == LastEvent(entries, key)
    ensures forall k :: k != key ==> Lookup(grown, k) == Lookup(entries, k)
  {
    index := 0;
    while index < |entries|
      invariant index <= |entries|
      invariant forall i :: 0 <= i < index ==> entries[i].key != key
    {
      if entries[index].key == key {
        LookupAt(entries, index);
        return entries, index;
      }
      index := index + 1;
    }
    LookupFresh(entries, key);
    grown := entries + [Entry(key, NOTHING, None)];
    forall k | k != key
      ensures Lookup(grown, k) == Lookup(entries, k)
    {
      LookupPush(entries, Entry(key, NOTHING, None), k);
    }
  }

  /** The list says what the log says. */
  ghost predicate Tallied<K(!new)>(entries: seq<Entry<K>>, log: seq<seq<Mark<K>>>) {
    Distinct(entries) && forall k :: TallyIn(entries, k) == Totals(log, k)
  }

  /** The list says what the log says followed by part of one more event, and
      `seen` names the keys that part has findings under. */
  ghost predicate TalliedWithin<K(!new)>(entries: seq<Entry<K>>, seen: seq<K>, log: seq<seq<Mark<K>>>,
                                         marks: seq<Mark<K>>)
  {
    && Distinct(entries)
    && (forall k :: TallyIn(entries, k) == OneEvent(Totals(log, k), marks, k))
    && (forall k :: k in seen <==> Mentions(marks, k))
  }

  lemma BeginEvent<K(!new)>(entries: seq<Entry<K>>, log: seq<seq<Mark<K>>>)
    requires Tallied(entries, log)
    ensures TalliedWithin(entries, [], log, [])
  {
  }

  lemma EndEvent<K(!new)>(entries: seq<Entry<K>>, seen: seq<K>, log: seq<seq<Mark<K>>>, marks: seq<Mark<K>>)
    requires TalliedWithin(entries, seen, log, marks)
    ensures Tallied(entries, log + [marks])
  {
    assert (log + [marks])[..|log|] == log;
  }

  lemma MentionsStep<K>(marks: seq<Mark<K>>, m: Mark<K>, key: K)
    ensures Mentions(marks + [m], key) <==> Mentions(marks, key) || m.key == key
  {
    assert forall x :: x in marks + [m] <==> x in marks || x == m;
  }

  /** A finding about sealed bytes; an empty capsule counts as no capsule. */
  function Sealed<K>(key: K, bytes: nat): Mark<K> {
    Mark(key, if bytes > 0 then 1 else 0, bytes)
  }

  /** `hit`: file a finding, adding to the event count once per event. */
  method Hit<K(!new, ==)>(entries: seq<Entry<K>>, seen: seq<K>, key: K, bytes: nat,
                          ghost log: seq<seq<Mark<K>>>, ghost marks: seq<Mark<K>>)
    returns (filed: seq<Entry<K>>, noted: seq<K>)
    requires TalliedWithin(entries, seen, log, marks)
    ensures TalliedWithin(filed, noted, log, marks + [Sealed(key, bytes)])
  {
    var index;
    filed, index := Slot(entries, key);
    ghost var slotted := filed;
    var tally := filed[index].tally;
    if bytes > 0 {
      tally := tally.(capsules := tally.capsules + 1, bytes := tally.bytes + bytes);
    }
    noted := seen;
    if key !in seen {
      noted := seen + [key];
      tally := tally.(events := tally.events + 1);
    }
    filed := filed[index := filed[index].(tally := tally)];
    forall k
      ensures Distinct(filed)
      ensures TallyIn(filed, k) == OneEvent(Totals(log, k), marks + [Sealed(key, bytes)], k)
      ensures k in noted <==> Mentions(marks + [Sealed(key, bytes)], k)
    {
      LookupUpdate(slotted, index, filed[index], k);
      OneMoreMark(Totals(log, k), marks, Sealed(key, bytes), k);
      MentionsStep(marks, Sealed(key, bytes), k);
    }
  }

  // A list may instead remember, entry by entry, the last event counted.

  function LastEvent<K(==)>(entries: seq<Entry<K>>, key: K): Option<nat> {
    var found := Lookup(entries, key);
    if found.Some? then found.value.lastEvent else None
  }

  ghost predicate Stamped<K(!new)>(entries: seq<Entry<K>>, log: seq<seq<Mark<K>>>) {
    Tallied(entries, log) && forall k, n: nat :: LastEvent(entries, k) == Some(n) ==> n < |log|
  }

  ghost predicate StampedWithin<K(!new)>(entries: seq<Entry<K>>, log: seq<seq<Mark<K>>>, marks: seq<Mark<K>>) {
    && Distinct(entries)
    && (forall k :: TallyIn(entries, k) == OneEvent(Totals(log, k), marks, k))
    && (forall k :: LastEvent(entries, k) == Some(|log|) <==> Mentions(marks, k))
    && (forall k, n: nat :: LastEvent(entries, k) == Some(n) ==> n <= |log|)
  }

  lemma BeginStamping<K(!new)>(entries: seq<Entry<K>>, log: seq<seq<Mark<K>>>)
    requires Stamped(entries, log)
    ensures StampedWithin(entries, log, [])
  {
  }

  lemma EndStamping<K(!new)>(entries: seq<Entry<K>>, log: seq<seq<Mark<K>>>, marks: seq<Mark<K>>)
    requires StampedWithin(entries, log, marks)
    ensures Stamped(entries, log + [marks])
  {
    assert (log + [marks])[..|log|] == log;
  }

  /** File a capsule that crossed a boundary it should not have. */
  method Carry<K(!new, ==)>(entries: seq<Entry<K>>, key: K, bytes: nat, event: nat,
                            ghost log: seq<seq<Mark<K>>>, ghost marks: seq<Mark<K>>)
    returns (filed: seq<Entry<K>>)
    requires StampedWithin(entries, log, marks) && event == |log|
    ensures StampedWithin(filed, log, marks + [Mark(key, 1, bytes)])
  {
    var index;
    filed, index := Slot(entries, key);
    ghost var slotted := filed;
    var entry := filed[index];
    entry := entry.(tally := entry.tally.(capsules := entry.tally.capsules + 1, bytes := entry.tally.bytes + bytes));
    if entry.lastEvent != Some(event) {
      entry := entry.(lastEvent := Some(event), tally := entry.tally.(events := entry.tally.events + 1));
    }
    filed := filed[index := entry];
    forall k
      ensures Distinct(filed)
      ensures TallyIn(filed, k) == OneEvent(Totals(log, k), marks + [Mark(key, 1, bytes)], k)
      ensures LastEvent(filed, k) == Some(|log|) <==> Mentions(marks + [Mark(key, 1, bytes)], k)
      ensures LastEvent(filed, k) == if k == key then Some(event) else LastEvent(entries, k)
    {
      LookupUpdate(slotted, index, entry, k);
      OneMoreMark(Totals(log, k), marks, Mark(key, 1, bytes), k);
      MentionsStep(marks, Mark(key, 1, bytes), k);
    }
  }

  // ---------------------------------------------------------------------------
  // What a tally counts
  // ---------------------------------------------------------------------------

  ghost function EventsMentioning<K>(log: seq<seq<Mark<K>>>, key: K): set<nat> {
    set i: nat | i < |log| && Mentions(log[i], key)
  }

  /** The `events` of a tally is the number of distinct events with a finding
      under the key, however many findings each of them has. */
  lemma {:induction false} EventsAreDistinct<K>(log: seq<seq<Mark<K>>>, key: K)
    ensures Totals(log, key).events == |EventsMentioning(log, key)|
  {
    if log != [] {
      var n := |log| - 1;
      EventsAreDistinct(log[..n], key);
      var before := EventsMentioning(log[..n], key);
      assert n !in before;
      assert EventsMentioning(log, key) == if Mentions(log[n], key) then before + {n} else before;
    } else {
      assert EventsMentioning(log, key) == {};
    }
  }

  /** A tally with no event in it is empty altogether. */
  lemma {:induction false} NoEventNothing<K>(log: seq<seq<Mark<K>>>, key: K)
    ensures Totals(log, key).events == 0 <==> forall i :: 0 <= i < |log| ==> !Mentions(log[i], key)
    ensures Totals(log, key).events == 0 ==> Totals(log, key) == NOTHING
  {
    if log != [] {
      var n := |log| - 1;
      NoEventNothing(log[..n], key);
      assert forall i :: 0 <= i < n ==> log[..n][i] == log[i];
      if !Mentions(log[n], key) {
        UnmentionedAddsNothing(log[n], key);
      }
    }
  }

  lemma {:induction false} UnmentionedAddsNothing<K>(marks: seq<Mark<K>>, key: K)
    requires !Mentions(marks, key)
    ensures Capsules(marks, key) == 0 && Bytes(marks, key) == 0
  {
    if marks != [] {
      assert forall m :: m in marks[..|marks| - 1] ==> m in marks;
      UnmentionedAddsNothing(marks[..|marks| - 1], key);
      assert marks[|marks| - 1] in marks;
    }
  }
}
