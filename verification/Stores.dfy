/** The last store decides: when a group's mask is right once nobody is updating it, however the
    updates raced. */
module Stores {
  import opened Common
  import opened Machine
  import opened Registry
  import opened Provenance
  import opened Slots
  import opened History
  import opened GroupMasks
  import opened Races

  /** The step from state p is the store that ends an update of slot i. */
  ghost predicate StoresAt(run: seq<State>, p: nat, who: Actor, i: nat) {
    p + 1 < |run| && InFlight(run[p], who, i) && !InFlight(run[p+1], who, i)
  }

  ghost predicate NoStores(run: seq<State>, a: nat, b: nat, i: nat) {
    forall p: nat, who: Actor :: a <= p < b ==> !StoresAt(run, p, who, i)
  }

  /** Whoever is bound to update a filled slot, or is at it, remains so or stores. */
  lemma DebtStep(x: Exts, s: State, act: Action, who: Actor, i: nat)
    requires RegistryInv(x, s) && Enabled(s, act) && GroupAt(s.a, i).Some?
    requires Owes(s, who, i) || InFlight(s, who, i)
    ensures var s' := Do(x, s, act);
      Owes(s', who, i) || InFlight(s', who, i) || (InFlight(s, who, i) && !InFlight(s', who, i))
  {
    if Acting(s, act) == Some(who) {
      ActingMoves(x, s, act, who, i);
    } else {
      OthersUnaffected(x, s, act, who, i);
    }
  }

  /** If a slot is quiet in the end and nobody stores to it, it has been quiet all along. */
  lemma {:induction false} QuietBefore(x: Exts, run: seq<State>, a: nat, n: nat, i: nat)
    requires IsRun(x, run) && a <= n < |run| && GroupAt(run[a].a, i).Some?
    requires NoStores(run, a, n, i) && Quiet(run[n], i)
    ensures forall p: nat :: a <= p <= n ==> Quiet(run[p], i)
    decreases n - a
  {
    if a < n {
      WriteOnce(x, run, a, a + 1);
      RegistryAlways(x, run, a);
      QuietBefore(x, run, a + 1, n, i);
      var act := ActionAt(x, run, a);
      forall who: Actor ensures !Owes(run[a], who, i) && !InFlight(run[a], who, i) {
        assert !StoresAt(run, a, who, i);
        if Owes(run[a], who, i) || InFlight(run[a], who, i) {
          DebtStep(x, run[a], act, who, i);
        }
      }
    }
  }

  /** The mask of a group and the OR of its children's. */
  ghost predicate SameMasks(x: Exts, s: State, s': State, g: Category) {
    MaskOf(s'.masks, g) == MaskOf(s.masks, g) && Sum(x, s'.masks, g) == Sum(x, s.masks, g)
  }

  lemma QuietStep(x: Exts, s: State, act: Action, i: nat)
    requires WellFormed(x) && GroupInv(x, s) && Enabled(s, act) && GroupAt(s.a, i).Some? && Quiet(s, i)
    ensures SameMasks(x, s, Do(x, s, act), GroupAt(s.a, i).value)
  {
    StepKeepsSums(x, s, act, i);
    SameNamedSameSums(x, s.masks, Do(x, s, act).masks, GroupAt(s.a, i).value, MAX_GROUP_SIZE);
    if Acting(s, act).None? {
      NoActorSameMasks(x, s, act);
    } else {
      MaskElsewhere(x, s, act, Acting(s, act).value, i);
    }
  }

  lemma {:induction false} QuietKeepsMasks(x: Exts, run: seq<State>, a: nat, n: nat, i: nat)
    requires WellFormed(x) && IsRun(x, run) && a <= n < |run| && GroupAt(run[a].a, i).Some?
    requires forall p: nat :: a <= p <= n ==> Quiet(run[p], i)
    ensures GroupAt(run[n].a, i) == GroupAt(run[a].a, i)
    ensures SameMasks(x, run[a], run[n], GroupAt(run[a].a, i).value)
    decreases n
  {
    if a < n {
      QuietKeepsMasks(x, run, a, n - 1, i);
      GroupInvAlways(x, run, n - 1);
      WriteOnce(x, run, n - 1, n);
      var act := ActionAt(x, run, n - 1);
      QuietStep(x, run[n-1], act, i);
    }
  }

  /** A store makes its group exact if and only if what it had read was up to date. */
  lemma StoreStep(x: Exts, s: State, act: Action, who: Actor, i: nat)
    requires WellFormed(x) && GroupInv(x, s) && Enabled(s, act)
    requires InFlight(s, who, i) && !InFlight(Do(x, s, act), who, i)
    ensures GroupAt(s.a, i).Some? && GroupAt(Do(x, s, act).a, i) == GroupAt(s.a, i)
    ensures MaskOf(Do(x, s, act).masks, GroupAt(s.a, i).value) == UpdateOf(s, who).value.sum
    ensures UpdateOf(s, who).value.j == MAX_GROUP_SIZE
    ensures MaskIsSum(x, Do(x, s, act), i) <==> UpToDate(x, s, who, i)
  {
    FlightSlotFilled(x, s, who, i);
    if Acting(s, act) != Some(who) {
      OthersUnaffected(x, s, act, who, i);
    }
    ActingMoves(x, s, act, who, i);
    StoreKeepsNamed(x, s, who);
    SameNamedSameSums(x, s.masks, Do(x, s, act).masks, GroupAt(s.a, i).value, MAX_GROUP_SIZE);
  }

  /** The last store decides. When a slot is quiet, its group's mask is the OR of its children's
      if and only if, at the moment of the last store to the slot, what that update had read was
      still what the children held. This is so in every interleaving. */
  lemma LastStoreDecides(x: Exts, run: seq<State>, p: nat, who: Actor, n: nat, i: nat)
    requires WellFormed(x) && IsRun(x, run) && p < n < |run|
    requires StoresAt(run, p, who, i) && NoStores(run, p + 1, n, i) && Quiet(run[n], i)
    ensures GroupAt(run[n].a, i).Some? && (MaskIsSum(x, run[n], i) <==> UpToDate(x, run[p], who, i))
  {
    GroupInvAlways(x, run, p);
    var act := ActionAt(x, run, p);
    StoreStep(x, run[p], act, who, i);
    QuietBefore(x, run, p + 1, n, i);
    QuietKeepsMasks(x, run, p + 1, n, i);
  }

  /** A slot that nobody has stored to since it was filled was filled by an init call, and its
      group's mask is the OR of its children's if and only if that was empty then. */
  lemma NeverStored(x: Exts, run: seq<State>, m: nat, n: nat, i: nat)
    requires WellFormed(x) && IsRun(x, run) && m < n < |run|
    requires GroupAt(run[m].a, i).None? && GroupAt(run[m+1].a, i).Some?
    requires NoStores(run, m + 1, n, i) && Quiet(run[n], i)
    ensures run[m].a.init.AddGroups? && run[m+1].a == StepInit(x, run[m].a)
    ensures GroupAt(run[n].a, i).Some?
    ensures MaskIsSum(x, run[n], i) <==> Sum(x, run[m].masks, GroupAt(run[n].a, i).value) == {}
  {
    QuietBefore(x, run, m + 1, n, i);
    QuietKeepsMasks(x, run, m + 1, n, i);
    GroupInvAlways(x, run, m);
    var act := ActionAt(x, run, m);
    FilledByInit(x, run[m], act, i);
  }

  lemma FilledByInit(x: Exts, s: State, act: Action, i: nat)
    requires GroupInv(x, s) && Enabled(s, act) && Fills(x, s, act, i) && Quiet(Do(x, s, act), i)
    ensures act.DoInit? && s.a.init.AddGroups?
    ensures Do(x, s, act).masks == s.masks && MaskOf(s.masks, GroupAt(Do(x, s, act).a, i).value) == {}
  {
    if !act.DoInit? {
      FreshFilled(x, s, act, i);
    } else {
      var g := GroupAt(Do(x, s, act).a, i).value;
      assert g in Todo(s.a) && Pending(s.a, g);
    }
  }

  /** The last store to a filled slot, or the step that filled it if nobody has stored to it. */
  lemma {:induction false} LastChange(x: Exts, run: seq<State>, n: nat, i: nat) returns (p: nat, who: Option<Actor>)
    requires IsRun(x, run) && n < |run| && GroupAt(run[n].a, i).Some?
    ensures p < n && NoStores(run, p + 1, n, i)
    ensures who.Some? ==> StoresAt(run, p, who.value, i)
    ensures who.None? ==> GroupAt(run[p].a, i).None? && GroupAt(run[p+1].a, i).Some?
    decreases n
  {
    assert n > 0;
    var last: nat := n - 1;
    if w: Actor :| StoresAt(run, last, w, i) {
      p, who := last, Some(w);
    } else if GroupAt(run[last].a, i).Some? {
      p, who := LastChange(x, run, last, i);
    } else {
      p, who := last, None;
    }
  }

  /** The exact condition, for every run: a quiet group's mask is the OR of its children's if and
      only if the last store to its slot was of an up-to-date sum, or nobody has stored to it
      and its children had no sessions when an init call added it. */
  lemma QuietGroupIsExactExactlyWhen(x: Exts, run: seq<State>, n: nat, i: nat) returns (p: nat, who: Option<Actor>)
    requires WellFormed(x) && IsRun(x, run) && n < |run| && GroupAt(run[n].a, i).Some? && Quiet(run[n], i)
    ensures p < n && NoStores(run, p + 1, n, i)
    ensures if who.Some? then StoresAt(run, p, who.value, i)
            else run[p].a.init.AddGroups? && GroupAt(run[p].a, i).None? && run[p+1].a == StepInit(x, run[p].a)
    ensures MaskIsSum(x, run[n], i) <==>
            if who.Some? then UpToDate(x, run[p], who.value, i)
            else Sum(x, run[p].masks, GroupAt(run[n].a, i).value) == {}
  {
    p, who := LastChange(x, run, n, i);
    if who.Some? {
      LastStoreDecides(x, run, p, who.value, n, i);
    } else {
      NeverStored(x, run, p, n, i);
    }
  }

  /** A registered group is exact whenever nobody is updating it, as long as updates of its slot
      do not overlap after the registrant's compare-and-swap. */
  lemma RegisteredGroupIsExact(x: Exts, run: seq<State>, m: nat, t: Thread, g: Category, i: nat, n: nat)
    requires WellFormed(x) && IsRun(x, run) && m < n < |run| && AddsAt(run, m, t, g, i)
    requires forall p: nat :: m < p <= n ==> Serialized(run[p], i)
    requires Quiet(run[n], i)
    ensures GroupAt(run[n].a, i) == Some(g) && MaskIsSum(x, run[n], i)
  {
    RegistrationOwes(run, m, t, g, i);
    ExactWhenSerialized(x, run, m + 1, n, i);
  }

  // ---------------------------------------------------------------- the bit of a resting session

  lemma FlightBegins(x: Exts, s: State, act: Action, who: Actor, i: nat)
    requires RegistryInv(x, s) && Enabled(s, act)
    requires !InFlight(s, who, i) && InFlight(Do(x, s, act), who, i)
    ensures UpdateOf(Do(x, s, act), who).value.j == 0 && UpdateOf(Do(x, s, act), who).value.sum == {}
  {
    NextKeepsRegistry(x, s, act);
    FlightSlotFilled(x, Do(x, s, act), who, i);
    if Fills(x, s, act, i) && !act.DoInit? {
      FreshFilled(x, s, act, i);
    } else if Acting(s, act) == Some(who) {
      ActingMoves(x, s, act, who, i);
    } else {
      OthersUnaffected(x, s, act, who, i);
    }
  }

  /** An update of a slot that was empty at state m has read all it has read after that. */
  lemma {:induction false} FlightBegan(x: Exts, run: seq<State>, who: Actor, i: nat, m: nat, p: nat) returns (a: nat)
    requires IsRun(x, run) && m <= p < |run| && GroupAt(run[m].a, i).None? && InFlight(run[p], who, i)
    ensures m < a <= p && Flight(run, who, i, a, p)
    decreases p
  {
    RegistryAlways(x, run, m);
    NoStaleInEmpty(x, run[m], i);
    if InFlight(run[p-1], who, i) {
      a := FlightBegan(x, run, who, i, m, p - 1);
    } else {
      a := p;
      RegistryAlways(x, run, p - 1);
      var act := ActionAt(x, run, p - 1);
      FlightBegins(x, run[p-1], act, who, i);
    }
  }

  /** Only a store to its slot changes a group's mask. */
  lemma MaskOnlyByStore(x: Exts, s: State, act: Action, i: nat)
    requires RegistryInv(x, s) && Enabled(s, act) && GroupAt(s.a, i).Some?
    requires forall who: Actor :: InFlight(s, who, i) ==> InFlight(Do(x, s, act), who, i)
    ensures MaskOf(Do(x, s, act).masks, GroupAt(s.a, i).value) == MaskOf(s.masks, GroupAt(s.a, i).value)
  {
    if Acting(s, act).None? {
      NoActorSameMasks(x, s, act);
    } else if InFlight(s, Acting(s, act).value, i) {
      ActingMoves(x, s, act, Acting(s, act).value, i);
    } else {
      MaskElsewhere(x, s, act, Acting(s, act).value, i);
    }
  }

  /** Session k has been between callbacks since its scan ended, at state n, at an empty slot no
      later than slot i. */
  ghost predicate RestsSinceScan(run: seq<State>, k: nat, n: nat, i: nat, m: nat) {
    && AtRest(run, k, n + 1, m)
    && k < |run[n].sessions|
    && SessionUpdate(run[n].sessions[k].pc).Some? && SessionUpdate(run[n].sessions[k].pc).value.Slot?
    && var empty := SessionUpdate(run[n].sessions[k].pc).value.i;
       empty <= i && GroupAt(run[n].a, empty).None?
  }

  /** The group's mask says of session k what it should. */
  ghost predicate SaysOf(x: Exts, s: State, i: nat, k: nat) {
    && GroupAt(s.a, i).Some? && k < |s.sessions|
    && (k in MaskOf(s.masks, GroupAt(s.a, i).value) <==> WantsChild(x, s, GroupAt(s.a, i).value, k))
  }

  lemma FlightSinceScan(x: Exts, run: seq<State>, k: nat, n: nat, i: nat, p: nat, who: Actor) returns (a: nat)
    requires IsRun(x, run) && n < p < |run| - 1
    requires RestsSinceScan(run, k, n, i, p + 1) && InFlight(run[p], who, i)
    ensures n < a <= p && Flight(run, who, i, a, p) && AtRest(run, k, a, p) && AtRest(run, k, a, p + 1)
  {
    RegistryAlways(x, run, n);
    assert Compact(run[n].a.groups);
    a := FlightBegan(x, run, who, i, n, p);
    assert run[a].sessions[k] == run[n+1].sessions[k];
  }

  lemma StoredSum(x: Exts, run: seq<State>, p: nat, who: Actor, i: nat)
    requires WellFormed(x) && IsRun(x, run) && StoresAt(run, p, who, i)
    ensures var u := UpdateOf(run[p], who).value;
      && u.j == MAX_GROUP_SIZE && GroupAt(run[p].a, i) == GroupAt(run[p+1].a, i) == Some(u.g)
      && MaskOf(run[p+1].masks, u.g) == u.sum
  {
    GroupInvAlways(x, run, p);
    var act := ActionAt(x, run, p);
    StoreStep(x, run[p], act, who, i);
    FlightSlotFilled(x, run[p], who, i);
  }

  lemma StoreSaysOf(x: Exts, run: seq<State>, k: nat, n: nat, i: nat, p: nat, who: Actor)
    requires WellFormed(x) && IsRun(x, run) && n < p < |run| - 1
    requires RestsSinceScan(run, k, n, i, p + 1) && StoresAt(run, p, who, i)
    ensures SaysOf(x, run[p+1], i, k)
  {
    var a := FlightSinceScan(x, run, k, n, i, p, who);
    StoredSum(x, run, p, who, i);
    RestingSessionsAreSeen(x, run, who, i, a, p, k);
    WantsStays(x, run, k, a, p + 1, GroupAt(run[p].a, i).value);
  }

  /** No missed update, for good: once anybody has stored to the slot, the group's mask has the
      bit of a session resting since its scan exactly when that session wants one of the
      children, in every interleaving and whoever stores, until its next callback. */
  lemma {:induction false} NoMissedUpdateInMask(x: Exts, run: seq<State>, k: nat, n: nat, i: nat,
                                                p: nat, who: Actor, m: nat)
    requires WellFormed(x) && IsRun(x, run) && n < p < m < |run|
    requires RestsSinceScan(run, k, n, i, m) && StoresAt(run, p, who, i)
    ensures SaysOf(x, run[m], i, k)
    decreases m
  {
    var last: nat := m - 1;
    if w: Actor :| StoresAt(run, last, w, i) {
      StoreSaysOf(x, run, k, n, i, last, w);
    } else {
      NoMissedUpdateInMask(x, run, k, n, i, p, who, last);
      RegistryAlways(x, run, last);
      WriteOnce(x, run, last, m);
      var act := ActionAt(x, run, last);
      forall w: Actor | InFlight(run[last], w, i) ensures InFlight(run[m], w, i) {
        assert !StoresAt(run, last, w, i);
      }
      MaskOnlyByStore(x, run[last], act, i);
      assert AtRest(run, k, last, m);
      WantsStays(x, run, k, last, m, GroupAt(run[last].a, i).value);
    }
  }
}
