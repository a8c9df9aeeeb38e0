/** Fixed-size arrays of slots that are filled once each, from the front, by compare-and-swap. */
module Slots {
  import opened Common

  /** The filled slots form a prefix. */
  ghost predicate Compact<T(!new)>(slots: seq<Option<T>>) {
    forall i, j :: 0 <= i < j < |slots| && slots[j].Some? ==> slots[i].Some?
  }

  ghost predicate NoRepeats<T(!new)>(slots: seq<Option<T>>) {
    forall i, j :: 0 <= i < j < |slots| && slots[i].Some? ==> slots[i] != slots[j]
  }

  ghost predicate FilledTo<T(!new)>(slots: seq<Option<T>>, i: nat) {
    i <= |slots| && forall j :: 0 <= j < i ==> slots[j].Some?
  }

  ghost predicate Stored<T(!new)>(slots: seq<Option<T>>, c: T) {
    exists i :: 0 <= i < |slots| && slots[i] == Some(c)
  }

  /** Filled slots keep their contents. */
  ghost predicate KeepsSlots<T(!new)>(slots: seq<Option<T>>, slots': seq<Option<T>>) {
    |slots| == |slots'| && forall i :: 0 <= i < |slots| && slots[i].Some? ==> slots'[i] == slots[i]
  }

  /** A successful compare-and-swap by someone who has found all earlier slots filled. */
  lemma FillSlot<T(!new)>(slots: seq<Option<T>>, i: nat, c: T)
    requires Compact(slots) && NoRepeats(slots) && FilledTo(slots, i)
    requires i < |slots| && slots[i].None? && !Stored(slots, c)
    ensures var slots' := slots[i := Some(c)];
      && Compact(slots') && NoRepeats(slots') && KeepsSlots(slots, slots')
      && (forall d :: Stored(slots', d) <==> Stored(slots, d) || d == c)
  {
    var slots' := slots[i := Some(c)];
    forall d ensures Stored(slots', d) <==> Stored(slots, d) || d == c {
      if Stored(slots, d) {
        var j :| 0 <= j < |slots| && slots[j] == Some(d);
        assert slots'[j] == Some(d);
      }
      if d == c { assert slots'[i] == Some(c); }
    }
    forall j, l | 0 <= j < l < |slots'| && slots'[j].Some? ensures slots'[j] != slots'[l] {
      if l == i { assert slots[j] != Some(c); }
    }
    forall j, l | 0 <= j < l < |slots'| && slots'[l].Some? ensures slots'[j].Some? {
      if l == i { assert FilledTo(slots, i); }
    }
  }
}
