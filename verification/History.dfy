/** A category's mask is the history of the sessions: which are set up and wanted it. */
module History {
  import opened Common
  import opened Filter
  import opened Machine
  import opened Registry
  import opened Provenance

  /** Whether the bit of an instance in this state belongs in the mask of category number i. */
  ghost predicate Expected(x: Exts, pc: SessionPc, c: Category, i: nat) {
    match pc
    case Idle => false
    case SetupLoad(_) => false
    case SetupOr(parsed, n, done) => i < done && Wants(x, parsed, c)
    case SetupScan(parsed, n, _) => i < n && Wants(x, parsed, c)
    case Active(parsed, n) => i < n && Wants(x, parsed, c)
    case StopLoad(parsed, n) => i < n && Wants(x, parsed, c)
    case StopAnd(parsed, n, _, done) => done <= i < n && Wants(x, parsed, c)
    case StopScan(_) => false
  }

  ghost predicate BitOk(x: Exts, s: State, k: nat, i: nat)
    requires k < |s.sessions| && i < |s.a.categories|
  {
    k in MaskOf(s.masks, s.a.categories[i]) <==> Expected(x, s.sessions[k].pc, s.a.categories[i], i)
  }

  ghost predicate HistoryInv(x: Exts, s: State) {
    && ProvenanceInv(x, s)
    && (forall k: nat, i: nat :: k < |s.sessions| && i < |s.a.categories| ==> BitOk(x, s, k, i))
  }

  lemma InitialHistory(x: Exts)
    ensures HistoryInv(x, Initial())
  {
    InitialProvenance(x);
  }

  /** The store that ends a group update never touches a registered category. */
  lemma StoreMissesCategories(x: Exts, s: State, u: Update, i: nat)
    requires RegistryInv(x, s) && UpdateOk(s.a, u) && i < |s.a.categories|
    ensures MaskOf(MasksAfterUpdate(s.masks, u), s.a.categories[i]) == MaskOf(s.masks, s.a.categories[i])
  {
    if u.Reading? {
      assert InGroups(s.a, u.g);
    }
  }

  lemma SessionKeepsBit(x: Exts, s: State, k: nat, k': nat, i: nat)
    requires HistoryInv(x, s) && k < |s.sessions| && k' < |s.sessions| && i < |s.a.categories|
    ensures BitOk(x, StepSession(x, s, k), k', i)
  {
    assert BitOk(x, s, k', i);
    if SessionUpdate(s.sessions[k].pc).Some? {
      StoreMissesCategories(x, s, SessionUpdate(s.sessions[k].pc).value, i);
    } else {
      assert InstanceOk(s.a, s.sessions[k]);
      MarkKeepsBit(x, s, k, k', i);
    }
  }

  /** A step of a callback that is not in a group update. */
  lemma MarkKeepsBit(x: Exts, s: State, k: nat, k': nat, i: nat)
    requires Distinct(s.a.categories) && s.a.count <= |s.a.categories|
    requires k < |s.sessions| && k' < |s.sessions| && i < |s.a.categories|
    requires InstanceOk(s.a, s.sessions[k]) && SessionUpdate(s.sessions[k].pc).None? && BitOk(x, s, k', i)
    ensures BitOk(x, StepSession(x, s, k), k', i)
  {
  }

  lemma InitKeepsBit(x: Exts, s: State, k: nat, i: nat)
    requires WellFormed(x) && HistoryInv(x, s) && k < |s.sessions| && i < |StepInit(x, s.a).categories|
    ensures BitOk(x, s.(a := StepInit(x, s.a)), k, i)
  {
    if i < |s.a.categories| {
      assert BitOk(x, s, k, i);
    } else {
      var c := Todo(s.a)[0];
      assert c in Todo(s.a) && Pending(s.a, c);
      assert AllKnown(x, s, c, MaskOf(s.masks, c));
      if k in MaskOf(s.masks, c) {
        assert false;
      }
      assert InstanceOk(s.a, s.sessions[k]);
    }
  }

  lemma ThreadKeepsBit(x: Exts, s: State, t: Thread, k: nat, i: nat)
    requires HistoryInv(x, s) && k < |s.sessions| && i < |s.a.categories|
    ensures StepThread(x, s, t).a.categories == s.a.categories && StepThread(x, s, t).sessions == s.sessions
    ensures BitOk(x, StepThread(x, s, t), k, i)
  {
    assert BitOk(x, s, k, i);
    if PcOf(s, t).Refreshing? {
      StoreMissesCategories(x, s, PcOf(s, t).u, i);
    }
  }

  lemma NextKeepsHistory(x: Exts, s: State, act: Action)
    requires WellFormed(x) && HistoryInv(x, s) && Enabled(s, act)
    ensures HistoryInv(x, Do(x, s, act))
  {
    var s' := Do(x, s, act);
    NextKeepsProvenance(x, s, act);
    forall k: nat, i: nat | k < |s'.sessions| && i < |s'.a.categories| ensures BitOk(x, s', k, i) {
      NextKeepsBit(x, s, act, k, i);
    }
  }

  lemma NextKeepsBit(x: Exts, s: State, act: Action, k: nat, i: nat)
    requires WellFormed(x) && HistoryInv(x, s) && Enabled(s, act)
    requires k < |s.sessions| == |Do(x, s, act).sessions| && i < |Do(x, s, act).a.categories|
    ensures BitOk(x, Do(x, s, act), k, i)
  {
    match act
    case DoSession(k') => SessionKeepsBit(x, s, k', k, i);
    case DoInit => InitKeepsBit(x, s, k, i);
    case DoThread(t) => ThreadKeepsBit(x, s, t, k, i);
    case _ => OtherKeepsBit(x, s, act, k, i);
  }

  lemma OtherKeepsBit(x: Exts, s: State, act: Action, k: nat, i: nat)
    requires HistoryInv(x, s) && Enabled(s, act) && !act.DoSession? && !act.DoInit? && !act.DoThread?
    requires k < |s.sessions| == |Do(x, s, act).sessions| && i < |Do(x, s, act).a.categories|
    ensures BitOk(x, Do(x, s, act), k, i)
  {
    assert BitOk(x, s, k, i);
  }

  lemma {:induction false} HistoryAlways(x: Exts, run: seq<State>, n: nat)
    requires WellFormed(x) && IsRun(x, run) && n < |run|
    ensures HistoryInv(x, run[n])
  {
    if n == 0 {
      InitialHistory(x);
    } else {
      HistoryAlways(x, run, n - 1);
      var act := ActionAt(x, run, n - 1);
      NextKeepsHistory(x, run[n-1], act);
    }
  }

  /** In every reachable state, between its callbacks, a session's bit is set in exactly the
      categories that were registered when it was set up and that its configuration enables;
      an unused index has no bit anywhere. Nothing other sessions, registrants or init calls
      do disturbs this. */
  lemma MaskIsSessionHistory(x: Exts, run: seq<State>, n: nat, k: nat, i: nat)
    requires WellFormed(x) && IsRun(x, run) && n < |run|
    requires k < MAX_SESSIONS && i < |run[n].a.categories|
    ensures |run[n].sessions| == MAX_SESSIONS
    ensures var pc, c := run[n].sessions[k].pc, run[n].a.categories[i];
      && (pc.Active? ==> (k in MaskOf(run[n].masks, c) <==>
            i < pc.n && pc.parsed.Some? && x(c).name.Some? &&
            MostSpecificRule(x(c).name.value, x(c).tags, pc.parsed.value)))
      && (pc.Idle? ==> k !in MaskOf(run[n].masks, c))
  {
    HistoryAlways(x, run, n);
    assert BitOk(x, run[n], k, i);
    var pc, c := run[n].sessions[k].pc, run[n].a.categories[i];
    if pc.Active? && pc.parsed.Some? && x(c).name.Some? {
      FilterRefinement(x(c).name.value, x(c).tags, pc.parsed.value);
    }
  }

  ghost predicate CarriesCount(pc: SessionPc) {
    (pc.SetupOr? || pc.SetupScan? || pc.Active? || pc.StopLoad? || pc.StopAnd?) && pc.parsed.Some?
  }

  lemma StepFromSetup(x: Exts, s: State, act: Action, k: nat)
    requires Enabled(s, act) && k < |s.sessions| && k < |Do(x, s, act).sessions|
    requires CarriesCount(Do(x, s, act).sessions[k].pc)
    ensures var pc, pc' := s.sessions[k].pc, Do(x, s, act).sessions[k].pc;
      && s.sessions[k].uses == Do(x, s, act).sessions[k].uses
      && ((pc == SetupLoad(pc'.parsed) && pc'.n == s.a.count) ||
          (CarriesCount(pc) && pc.n == pc'.n && pc.parsed == pc'.parsed))
  {
  }

  /** The count a session carries is the one published when it was set up: its setup loaded it
      at some earlier state m, and the index has not been reused since. */
  lemma {:induction false} CountIsFromSetup(x: Exts, run: seq<State>, n: nat, k: nat) returns (m: nat)
    requires IsRun(x, run) && n < |run| && k < MAX_SESSIONS
    requires |run[n].sessions| == MAX_SESSIONS && CarriesCount(run[n].sessions[k].pc)
    ensures m < n && |run[m].sessions| == MAX_SESSIONS
    ensures run[m].sessions[k].pc == SetupLoad(run[n].sessions[k].pc.parsed)
    ensures run[n].sessions[k].pc.n == run[m].a.count
    ensures run[m].sessions[k].uses == run[n].sessions[k].uses
  {
    assert n > 0;
    var act := ActionAt(x, run, n - 1);
    RegistryAlways(x, run, n - 1);
    StepFromSetup(x, run[n-1], act, k);
    if run[n-1].sessions[k].pc == SetupLoad(run[n].sessions[k].pc.parsed) {
      m := n - 1;
    } else {
      m := CountIsFromSetup(x, run, n - 1, k);
    }
  }

  lemma StepFromBegin(x: Exts, s: State, act: Action, k: nat)
    requires Enabled(s, act) && k < |s.sessions| && k < |Do(x, s, act).sessions|
    requires !Do(x, s, act).sessions[k].pc.Idle? && !Do(x, s, act).sessions[k].pc.StopScan?
    ensures var me, me' := s.sessions[k], Do(x, s, act).sessions[k];
      || act == BeginSetup(k, me'.pc.parsed)
      || (!me.pc.Idle? && !me.pc.StopScan? && me.pc.parsed == me'.pc.parsed && me.uses == me'.uses)
  {
  }

  /** And the configuration it carries is the one it was set up with, in the same use of its
      index. */
  lemma {:induction false} ConfigIsFromSetup(x: Exts, run: seq<State>, n: nat, k: nat) returns (b: nat)
    requires IsRun(x, run) && n < |run| && k < MAX_SESSIONS && |run[n].sessions| == MAX_SESSIONS
    requires !run[n].sessions[k].pc.Idle? && !run[n].sessions[k].pc.StopScan?
    ensures b < n && Enabled(run[b], BeginSetup(k, run[n].sessions[k].pc.parsed))
    ensures run[b+1] == Do(x, run[b], BeginSetup(k, run[n].sessions[k].pc.parsed))
    ensures |run[b].sessions| == MAX_SESSIONS && run[b].sessions[k].uses + 1 == run[n].sessions[k].uses
  {
    assert n > 0;
    var act := ActionAt(x, run, n - 1);
    RegistryAlways(x, run, n - 1);
    StepFromBegin(x, run[n-1], act, k);
    if act == BeginSetup(k, run[n].sessions[k].pc.parsed) {
      b := n - 1;
    } else {
      b := ConfigIsFromSetup(x, run, n - 1, k);
    }
  }
}
