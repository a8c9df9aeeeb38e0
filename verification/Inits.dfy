/** What a call of percetto_init_with_args has stored when it is over, whatever sessions, other
    registrants and events did meanwhile. */
module Inits {
  import opened Common
  import opened Machine
  import opened Registry
  import opened Slots

  /** lead is the number of named objects before the first group of an init list. */
  ghost predicate Leads(x: Exts, list: seq<Category>, lead: nat) {
    && lead <= |list|
    && (forall i :: 0 <= i < lead ==> x(list[i]).name.Some?)
    && (lead < |list| ==> x(list[lead]).name.None?)
  }

  /** As many of the first n objects as the category array has room for after the earlier ones. */
  ghost function Fitting(before: seq<Category>, list: seq<Category>, n: nat): seq<Category>
    requires n <= |list| && |before| <= 64
  {
    if n <= 64 - |before| then list[..n] else list[..64 - |before|]
  }

  ghost predicate AllSlotsFull(a: Arrays) {
    forall i: nat :: i < 32 ==> GroupAt(a, i).Some?
  }

  /** These objects of the list are in the group array, unless it is full. */
  ghost predicate Placed(a: Arrays, list: seq<Category>, lo: nat, hi: nat)
    requires hi <= |list|
  {
    forall j :: lo <= j < hi ==> InGroups(a, list[j]) || AllSlotsFull(a)
  }

  lemma PlacedStays(a: Arrays, a': Arrays, list: seq<Category>, lo: nat, hi: nat)
    requires hi <= |list| && KeepsSlots(a.groups, a'.groups) && Placed(a, list, lo, hi)
    ensures Placed(a', list, lo, hi)
  {
    forall j | lo <= j < hi ensures InGroups(a', list[j]) || AllSlotsFull(a') {
      if AllSlotsFull(a) {
        forall i: nat | i < 32 ensures GroupAt(a', i).Some? {
          assert GroupAt(a, i).Some?;
        }
      } else {
        var i :| 0 <= i < |a.groups| && a.groups[i] == Some(list[j]);
        assert a'.groups[i] == Some(list[j]);
      }
    }
  }

  /** An init call of this list that found the earlier categories is in its first loop and has
      come to object n. */
  ghost predicate AddingCategories(a: Arrays, before: seq<Category>, list: seq<Category>, lead: nat, n: nat) {
    && |before| <= 64 && n <= lead <= |list|
    && a.init == AddCategories(list[n..])
    && a.categories == before + Fitting(before, list, n)
  }

  /** It is in its second loop and has come to object n. */
  ghost predicate AddingGroups(a: Arrays, before: seq<Category>, list: seq<Category>, lead: nat, n: nat) {
    && |before| <= 64 && lead <= n <= |list|
    && a.init.AddGroups? && a.init.todo == list[n..]
    && a.categories == before + Fitting(before, list, lead) && Placed(a, list, lead, n)
  }

  /** It is over. */
  ghost predicate InitDone(a: Arrays, before: seq<Category>, list: seq<Category>, lead: nat) {
    && |before| <= 64 && lead <= |list|
    && a.init.NoInit?
    && a.categories == before + Fitting(before, list, lead) && a.count == |a.categories|
    && Placed(a, list, lead, |list|)
  }

  ghost predicate InitAt(a: Arrays, before: seq<Category>, list: seq<Category>, lead: nat) {
    || (exists n: nat :: AddingCategories(a, before, list, lead, n))
    || (exists n: nat :: AddingGroups(a, before, list, lead, n))
  }

  lemma AddsCategory(x: Exts, a: Arrays, before: seq<Category>, list: seq<Category>, lead: nat, n: nat)
    requires ArraysOk(x, a) && Leads(x, list, lead) && AddingCategories(a, before, list, lead, n)
    ensures if n < lead then AddingCategories(StepInit(x, a), before, list, lead, n + 1)
            else AddingGroups(StepInit(x, a), before, list, lead, n)
  {
    if n < lead {
      assert list[n..][0] == list[n] && list[n..][1..] == list[n + 1..];
      assert list[..n + 1] == list[..n] + [list[n]];
    } else if n < |list| {
      assert list[n..][0] == list[n];
    }
  }

  lemma AddsGroup(x: Exts, a: Arrays, before: seq<Category>, list: seq<Category>, lead: nat, n: nat)
    requires ArraysOk(x, a) && AddingGroups(a, before, list, lead, n)
    ensures var a' := StepInit(x, a);
      if n == |list| then InitDone(a', before, list, lead)
      else AddingGroups(a', before, list, lead, n) || AddingGroups(a', before, list, lead, n + 1)
  {
    var a', i := StepInit(x, a), a.init.i;
    InitKeepsArrays(x, a);
    PlacedStays(a, a', list, lead, n);
    if n < |list| {
      assert list[n..][0] == list[n] && list[n..][1..] == list[n + 1..];
      if i >= |a.groups| {
        assert FilledTo(a.groups, i);
        assert AllSlotsFull(a');
      } else if a.groups[i].None? {
        assert a'.groups[i] == Some(list[n]);
        assert InGroups(a', list[n]);
      }
    }
  }

  lemma InitAdvances(x: Exts, a: Arrays, before: seq<Category>, list: seq<Category>, lead: nat)
    requires ArraysOk(x, a) && Leads(x, list, lead) && InitAt(a, before, list, lead)
    ensures InitAt(StepInit(x, a), before, list, lead) || InitDone(StepInit(x, a), before, list, lead)
  {
    if n: nat :| AddingCategories(a, before, list, lead, n) {
      AddsCategory(x, a, before, list, lead, n);
    } else {
      var n: nat :| AddingGroups(a, before, list, lead, n);
      AddsGroup(x, a, before, list, lead, n);
    }
  }

  lemma OthersKeepInit(x: Exts, s: State, act: Action)
    requires Enabled(s, act) && !act.DoInit? && !s.a.init.NoInit?
    ensures Do(x, s, act).a.categories == s.a.categories && Do(x, s, act).a.init == s.a.init
  {
  }

  /** Steps of others leave an init call where it is. */
  lemma InitStays(x: Exts, s: State, act: Action, before: seq<Category>, list: seq<Category>, lead: nat)
    requires RegistryInv(x, s) && Enabled(s, act) && !act.DoInit? && InitAt(s.a, before, list, lead)
    ensures InitAt(Do(x, s, act).a, before, list, lead)
  {
    var a' := Do(x, s, act).a;
    OthersKeepInit(x, s, act);
    if n: nat :| AddingCategories(s.a, before, list, lead, n) {
      assert AddingCategories(a', before, list, lead, n);
    } else {
      var n: nat :| AddingGroups(s.a, before, list, lead, n);
      NextKeepsRegistry(x, s, act);
      PlacedStays(s.a, a', list, lead, n);
      assert AddingGroups(a', before, list, lead, n);
    }
  }

  lemma InitStep(x: Exts, s: State, act: Action, before: seq<Category>, list: seq<Category>, lead: nat)
    requires RegistryInv(x, s) && Enabled(s, act) && Leads(x, list, lead) && InitAt(s.a, before, list, lead)
    ensures InitAt(Do(x, s, act).a, before, list, lead) || InitDone(Do(x, s, act).a, before, list, lead)
  {
    if act.DoInit? {
      InitAdvances(x, s.a, before, list, lead);
    } else {
      InitStays(x, s, act, before, list, lead);
    }
  }

  lemma InitNext(x: Exts, run: seq<State>, n: nat, before: seq<Category>, list: seq<Category>, lead: nat)
    requires IsRun(x, run) && n + 1 < |run| && Leads(x, list, lead) && InitAt(run[n].a, before, list, lead)
    ensures InitAt(run[n+1].a, before, list, lead) || InitDone(run[n+1].a, before, list, lead)
  {
    RegistryAlways(x, run, n);
    var act := ActionAt(x, run, n);
    InitStep(x, run[n], act, before, list, lead);
  }

  lemma {:induction false} InitGoesOn(x: Exts, run: seq<State>, n: nat, m: nat,
                                      before: seq<Category>, list: seq<Category>, lead: nat)
    requires IsRun(x, run) && n <= m < |run| && Leads(x, list, lead) && InitAt(run[n].a, before, list, lead)
    requires forall p: nat :: n <= p < m ==> !run[p].a.init.NoInit?
    ensures InitAt(run[m].a, before, list, lead) || InitDone(run[m].a, before, list, lead)
    decreases m
  {
    if n < m {
      InitGoesOn(x, run, n, m - 1, before, list, lead);
      InitNext(x, run, m - 1, before, list, lead);
    }
  }

  /** A finished init call has published the named objects at the beginning of its list, in order
      and up to 64 categories in all, and nothing else; and each of the other objects is in the
      group array unless its 32 slots are full. */
  lemma InitStoresItsList(x: Exts, run: seq<State>, n: nat, m: nat, list: seq<Category>, lead: nat)
    requires IsRun(x, run) && n < m < |run| && Enabled(run[n], BeginInit(list))
    requires run[n+1] == Do(x, run[n], BeginInit(list))
    requires run[m].a.init.NoInit? && forall p: nat :: n < p < m ==> !run[p].a.init.NoInit?
    requires Leads(x, list, lead)
    ensures |run[n].a.categories| <= 64
    ensures var room := 64 - |run[n].a.categories|;
      run[m].a.categories == run[n].a.categories + if lead <= room then list[..lead] else list[..room]
    ensures run[m].a.count == |run[m].a.categories|
    ensures forall j :: lead <= j < |list| ==>
      InGroups(run[m].a, list[j]) || forall i: nat :: i < 32 ==> GroupAt(run[m].a, i).Some?
  {
    RegistryAlways(x, run, n);
    assert list[0..] == list;
    assert AddingCategories(run[n+1].a, run[n].a.categories, list, lead, 0);
    InitGoesOn(x, run, n + 1, m, run[n].a.categories, list, lead);
  }
}
