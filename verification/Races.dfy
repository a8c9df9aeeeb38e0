/** What group updates guarantee although they race. */
module Races {
  import opened Common
  import opened Machine
  import opened Registry
  import opened Provenance
  import opened History
  import opened GroupMasks

  // ---------------------------------------------------------------- one update, over an interval

  /** One update of slot i, from just after its load of the slot at state a up to state b. */
  ghost predicate Flight(run: seq<State>, who: Actor, i: nat, a: nat, b: nat) {
    && a <= b < |run|
    && (forall p: nat :: a <= p <= b ==> InFlight(run[p], who, i))
    && UpdateOf(run[a], who).value.j == 0 && UpdateOf(run[a], who).value.sum == {}
  }

  lemma FlightStep(x: Exts, s: State, act: Action, who: Actor, i: nat)
    requires RegistryInv(x, s) && Enabled(s, act)
    requires InFlight(s, who, i) && InFlight(Do(x, s, act), who, i)
    ensures var u, u' := UpdateOf(s, who).value, UpdateOf(Do(x, s, act), who).value;
      u' == u || (u.j < MAX_GROUP_SIZE && u' == Reading(i, u.g, u.j + 1, u.sum + ChildMask(x, s.masks, u.g, u.j)))
  {
    FlightSlotFilled(x, s, who, i);
    if Acting(s, act) == Some(who) {
      ActingMoves(x, s, act, who, i);
    } else {
      OthersUnaffected(x, s, act, who, i);
    }
  }

  ghost predicate Holds(x: Exts, s: State, g: Category, j: nat, k: nat) {
    j < MAX_GROUP_SIZE && k in ChildMask(x, s.masks, g, j)
  }

  ghost predicate HoldsThroughout(x: Exts, run: seq<State>, g: Category, j: nat, k: nat, a: nat, b: nat) {
    b < |run| && forall p: nat :: a <= p <= b ==> Holds(x, run[p], g, j, k)
  }

  ghost predicate HoldsSometime(x: Exts, run: seq<State>, g: Category, j: nat, k: nat, a: nat, b: nat) {
    b < |run| && exists p: nat :: a <= p <= b && Holds(x, run[p], g, j, k)
  }

  /** k is in the sum if some child read so far had it throughout, and only if some child read
      so far had it at some moment. */
  ghost predicate SumBounded(x: Exts, run: seq<State>, u: Update, a: nat, b: nat, k: nat)
    requires u.Reading?
  {
    && (forall j: nat :: j < u.j && HoldsThroughout(x, run, u.g, j, k, a, b) ==> k in u.sum)
    && (k in u.sum ==> exists j: nat :: j < u.j && HoldsSometime(x, run, u.g, j, k, a, b))
  }

  lemma OneMoreRead(x: Exts, run: seq<State>, u: Update, u': Update, a: nat, b: nat, k: nat)
    requires a < b < |run| && u.Reading? && SumBounded(x, run, u, a, b - 1, k)
    requires u' == u
      || (u.j < MAX_GROUP_SIZE && u' == Reading(u.i, u.g, u.j + 1, u.sum + ChildMask(x, run[b-1].masks, u.g, u.j)))
    ensures SumBounded(x, run, u', a, b, k)
  {
    forall j: nat | j < u'.j && HoldsThroughout(x, run, u.g, j, k, a, b) ensures k in u'.sum {
      assert Holds(x, run[b-1], u.g, j, k);
      assert HoldsThroughout(x, run, u.g, j, k, a, b - 1);
    }
    if k in u.sum {
      var j: nat :| j < u.j && HoldsSometime(x, run, u.g, j, k, a, b - 1);
      assert HoldsSometime(x, run, u.g, j, k, a, b);
    } else if k in u'.sum {
      assert Holds(x, run[b-1], u.g, u.j, k);
      assert HoldsSometime(x, run, u.g, u.j, k, a, b);
    }
  }

  /** What an update is about to store contains every bit that some child had throughout, and
      only bits that some child had at some moment of it, however many other updates and
      sessions interleave. (Once j is MAX_GROUP_SIZE, every child has been read.) */
  lemma {:induction false} SumWithinInterval(x: Exts, run: seq<State>, who: Actor, i: nat, a: nat, b: nat, k: nat)
    requires IsRun(x, run) && Flight(run, who, i, a, b)
    ensures UpdateOf(run[b], who).value.g == UpdateOf(run[a], who).value.g
    ensures var u := UpdateOf(run[b], who).value;
      u.j <= MAX_GROUP_SIZE && SumBounded(x, run, u, a, b, k)
  {
    assert InFlight(run[b], who, i);
    if a < b {
      SumWithinInterval(x, run, who, i, a, b - 1, k);
      RegistryAlways(x, run, b - 1);
      var act := ActionAt(x, run, b - 1);
      assert InFlight(run[b-1], who, i);
      FlightStep(x, run[b-1], act, who, i);
      OneMoreRead(x, run, UpdateOf(run[b-1], who).value, UpdateOf(run[b], who).value, a, b, k);
    }
  }

  // ---------------------------------------------------------------- no missed update

  /** Session k is between callbacks, the same way, from state a to state b. */
  ghost predicate AtRest(run: seq<State>, k: nat, a: nat, b: nat) {
    && a <= b < |run|
    && k < |run[a].sessions|
    && (forall p: nat :: a <= p <= b ==> k < |run[p].sessions| && run[p].sessions[k] == run[a].sessions[k])
    && (run[a].sessions[k].pc.Active? || run[a].sessions[k].pc.Idle?)
  }

  /** Session k wants some child of g that was registered when it was set up. */
  ghost predicate WantsChild(x: Exts, s: State, g: Category, k: nat)
    requires k < |s.sessions|
  {
    exists n: nat :: n < |s.a.categories| && s.a.categories[n] in ChildrenOf(x, g)
      && Expected(x, s.sessions[k].pc, s.a.categories[n], n)
  }

  lemma ChildBits(x: Exts, s: State, g: Category, k: nat)
    requires WellFormed(x) && HistoryInv(x, s) && k < |s.sessions|
    ensures (exists j: nat :: Holds(x, s, g, j, k)) <==> WantsChild(x, s, g, k)
  {
    if j: nat :| Holds(x, s, g, j, k) {
      var d := x(g).group[j].value;
      assert d in ChildrenOf(x, g);
      assert AllKnown(x, s, d, MaskOf(s.masks, d));
      if d !in s.a.categories { NamedKnown(x, s, d, MaskOf(s.masks, d)); }
      var n :| 0 <= n < |s.a.categories| && s.a.categories[n] == d;
      assert BitOk(x, s, k, n);
    }
    if WantsChild(x, s, g, k) {
      var n: nat :| n < |s.a.categories| && s.a.categories[n] in ChildrenOf(x, g)
        && Expected(x, s.sessions[k].pc, s.a.categories[n], n);
      assert BitOk(x, s, k, n);
      var j: nat :| j < MAX_GROUP_SIZE && x(g).group[j] == Some(s.a.categories[n]);
      assert Holds(x, s, g, j, k);
    }
  }

  /** Where a resting session's bits are does not change. */
  lemma RestingBits(x: Exts, run: seq<State>, k: nat, a: nat, p: nat, g: Category)
    requires WellFormed(x) && IsRun(x, run) && AtRest(run, k, a, p)
    ensures forall j: nat :: Holds(x, run[p], g, j, k) <==> Holds(x, run[a], g, j, k)
  {
    HistoryAlways(x, run, a);
    HistoryAlways(x, run, p);
    WriteOnce(x, run, a, p);
    assert run[p].sessions[k] == run[a].sessions[k];
    forall j: nat | j < MAX_GROUP_SIZE && x(g).group[j].Some?
      ensures Holds(x, run[p], g, j, k) <==> Holds(x, run[a], g, j, k)
    {
      RestingBit(x, run[a], run[p], k, x(g).group[j].value);
    }
  }

  lemma RestingBit(x: Exts, s: State, s': State, k: nat, d: Category)
    requires WellFormed(x) && HistoryInv(x, s) && HistoryInv(x, s') && x(d).name.Some?
    requires s.a.categories <= s'.a.categories && s.a.count <= s'.a.count
    requires k < |s.sessions| && k < |s'.sessions| && s'.sessions[k] == s.sessions[k]
    requires s.sessions[k].pc.Active? || s.sessions[k].pc.Idle?
    ensures k in MaskOf(s'.masks, d) <==> k in MaskOf(s.masks, d)
  {
    assert AllKnown(x, s, d, MaskOf(s.masks, d)) && AllKnown(x, s', d, MaskOf(s'.masks, d));
    if d !in s.a.categories { NamedKnown(x, s, d, MaskOf(s.masks, d)); }
    if d !in s'.a.categories { NamedKnown(x, s', d, MaskOf(s'.masks, d)); }
    if d in s'.a.categories {
      var n :| 0 <= n < |s'.a.categories| && s'.a.categories[n] == d;
      assert BitOk(x, s', k, n);
      assert InstanceOk(s.a, s.sessions[k]);
      if n < |s.a.categories| {
        assert BitOk(x, s, k, n);
      } else {
        assert Distinct(s'.a.categories);
        assert d !in s.a.categories;
      }
    }
  }

  /** A complete update stores the bit of every session that is at rest meanwhile exactly when
      that session wants one of the children. */
  lemma RestingSessionsAreSeen(x: Exts, run: seq<State>, who: Actor, i: nat, a: nat, b: nat, k: nat)
    requires WellFormed(x) && IsRun(x, run) && Flight(run, who, i, a, b) && AtRest(run, k, a, b)
    requires UpdateOf(run[b], who).value.j == MAX_GROUP_SIZE
    ensures k in UpdateOf(run[b], who).value.sum <==> WantsChild(x, run[a], UpdateOf(run[b], who).value.g, k)
  {
    var u := UpdateOf(run[b], who).value;
    SumWithinInterval(x, run, who, i, a, b, k);
    HistoryAlways(x, run, a);
    ChildBits(x, run[a], u.g, k);
    forall p: nat | a <= p <= b ensures forall j: nat :: Holds(x, run[p], u.g, j, k) <==> Holds(x, run[a], u.g, j, k) {
      assert AtRest(run, k, a, p);
      RestingBits(x, run, k, a, p, u.g);
    }
    if j: nat :| Holds(x, run[a], u.g, j, k) {
      assert HoldsThroughout(x, run, u.g, j, k, a, b);
    }
  }

  /** No missed update. The scan of session k stopped at an empty slot, at state n; a group is
      added to that slot or a later one at state m; then the registrant's own update stores
      the session's bit exactly when the session wants one of the children. */
  lemma NoMissedUpdate(x: Exts, run: seq<State>, k: nat, n: nat, empty: nat, m: nat,
                       t: Thread, g: Category, i: nat, a: nat, b: nat)
    requires WellFormed(x) && IsRun(x, run) && n <= m < a && AtRest(run, k, n + 1, b)
    requires k < |run[n].sessions| && SessionUpdate(run[n].sessions[k].pc) == Some(Slot(empty))
    requires GroupAt(run[n].a, empty).None? && empty <= i
    requires AddsAt(run, m, t, g, i)
    requires Flight(run, Registrant(t), i, a, b) && UpdateOf(run[b], Registrant(t)).value.j == MAX_GROUP_SIZE
    ensures UpdateOf(run[b], Registrant(t)).value.g == g
    ensures k in UpdateOf(run[b], Registrant(t)).value.sum <==> WantsChild(x, run[n+1], g, k)
  {
    assert InFlight(run[b], Registrant(t), i);
    RegistryAlways(x, run, b);
    FlightSlotFilled(x, run[b], Registrant(t), i);
    WriteOnce(x, run, m + 1, b);
    assert run[a].sessions[k] == run[n+1].sessions[k];
    assert AtRest(run, k, a, b) && AtRest(run, k, n + 1, a);
    RestingSessionsAreSeen(x, run, Registrant(t), i, a, b, k);
    WantsStays(x, run, k, n + 1, a, g);
  }

  lemma WantsStays(x: Exts, run: seq<State>, k: nat, a: nat, b: nat, g: Category)
    requires WellFormed(x) && IsRun(x, run) && AtRest(run, k, a, b) && k < |run[b].sessions|
    ensures WantsChild(x, run[a], g, k) <==> WantsChild(x, run[b], g, k)
  {
    HistoryAlways(x, run, a);
    HistoryAlways(x, run, b);
    ChildBits(x, run[a], g, k);
    ChildBits(x, run[b], g, k);
    RestingBits(x, run, k, a, b, g);
  }
}
