/** Lists without repeats, and sets of positions. */
module Lists {

  ghost predicate NoRepeats<T>(items: seq<T>) {
    forall i, j :: 0 <= i < j < |items| ==> items[i] != items[j]
  }

  function SetOf<T(==)>(items: seq<T>): set<T> {
    set x | x in items
  }

  /** A list has repeats exactly when it is longer than its set. */
  lemma {:induction false} SetSize<T>(items: seq<T>)
    ensures |SetOf(items)| <= |items|
    ensures |SetOf(items)| == |items| <==> NoRepeats(items)
  {
    if items != [] {
      var init, last := items[..|items| - 1], items[|items| - 1];
      SetSize(init);
      assert SetOf(items) == SetOf(init) + {last};
      if last in init {
        var i :| 0 <= i < |init| && init[i] == last;
        assert items[i] == items[|items| - 1];
      } else {
        assert forall i :: 0 <= i < |init| ==> init[i] != last;
        assert NoRepeats(items) <==> NoRepeats(init);
      }
    }
  }

  /** The chosen positions below `n`. */
  function Below(chosen: set<nat>, n: nat): set<nat> {
    set m | m in chosen && m < n
  }

  lemma BelowStep(chosen: set<nat>, n: nat)
    ensures |Below(chosen, n + 1)| == |Below(chosen, n)| + if n in chosen then 1 else 0
  {
    assert Below(chosen, n + 1) == Below(chosen, n) + if n in chosen then {n} else {};
  }

  lemma BelowAll(chosen: set<nat>, n: nat)
    requires forall m :: m in chosen ==> m < n
    ensures Below(chosen, n) == chosen && Below(chosen, 0) == {}
  {
  }
}
