/** Where session bits come from: a bit in any mask, partial sum or copy of a mask was put into
    some registered category by a setup that knew that category. */
module Provenance {
  import opened Common
  import opened Machine
  import opened Registry

  /** A setup at index k has known c itself or a child of c. */
  ghost predicate Known(x: Exts, s: State, c: Category, k: nat) {
    && k < |s.sessions|
    && (exists i :: 0 <= i < s.sessions[k].reach && i < |s.a.categories|
          && (s.a.categories[i] == c || s.a.categories[i] in ChildrenOf(x, c)))
  }

  ghost predicate AllKnown(x: Exts, s: State, c: Category, mask: Mask) {
    forall k: nat :: k in mask ==> Known(x, s, c, k)
  }

  ghost predicate MasksKnown(x: Exts, s: State) {
    forall c: Category :: AllKnown(x, s, c, MaskOf(s.masks, c))
  }

  ghost predicate UpdateKnown(x: Exts, s: State, u: Update) {
    u.Reading? ==> AllKnown(x, s, u.g, u.sum)
  }

  ghost predicate SessionsKnown(x: Exts, s: State) {
    forall k :: 0 <= k < |s.sessions| && SessionUpdate(s.sessions[k].pc).Some? ==>
      UpdateKnown(x, s, SessionUpdate(s.sessions[k].pc).value)
  }

  ghost predicate ThreadKnown(x: Exts, s: State, pc: ThreadPc) {
    match pc
    case Free => true
    case Adding(_, _) => true
    case Refreshing(u) => UpdateKnown(x, s, u)
    case _ => AllKnown(x, s, pc.c, pc.mask)
  }

  ghost predicate ThreadsKnown(x: Exts, s: State) {
    forall t :: ThreadKnown(x, s, PcOf(s, t))
  }

  /** Reach never exceeds the published count, and the program counters stay in range. */
  ghost predicate InstanceOk(a: Arrays, me: Instance) {
    && me.reach <= a.count
    && match me.pc
       case Idle => true
       case SetupLoad(_) => true
       case SetupOr(parsed, n, i) => i <= n == me.reach && parsed.Some?
       case SetupScan(parsed, n, _) => n == me.reach && parsed.Some?
       case Active(parsed, n) => if parsed.Some? then n == me.reach else n == 0
       case StopLoad(parsed, n) => if parsed.Some? then n == me.reach else n == 0
       case StopAnd(parsed, n, m, i) => (if parsed.Some? then n == me.reach else n == 0) && i <= m && n <= m <= a.count
       case StopScan(_) => true
  }

  ghost predicate InstancesOk(s: State) {
    forall k :: 0 <= k < |s.sessions| ==> InstanceOk(s.a, s.sessions[k])
  }

  ghost predicate ProvenanceInv(x: Exts, s: State) {
    && RegistryInv(x, s)
    && InstancesOk(s)
    && MasksKnown(x, s)
    && SessionsKnown(x, s)
    && ThreadsKnown(x, s)
  }

  /** What a setup has known stays known. */
  ghost predicate Remembers(s: State, s': State) {
    && s.a.categories <= s'.a.categories
    && |s.sessions| == |s'.sessions|
    && forall k :: 0 <= k < |s.sessions| ==> s.sessions[k].reach <= s'.sessions[k].reach
  }

  lemma KnownStays(x: Exts, s: State, s': State)
    requires Remembers(s, s')
    ensures forall c: Category, k: nat :: Known(x, s, c, k) ==> Known(x, s', c, k)
    ensures forall c: Category, mask :: AllKnown(x, s, c, mask) ==> AllKnown(x, s', c, mask)
    ensures forall u :: UpdateKnown(x, s, u) ==> UpdateKnown(x, s', u)
    ensures forall pc :: ThreadKnown(x, s, pc) ==> ThreadKnown(x, s', pc)
  {
    forall c: Category, k: nat | Known(x, s, c, k) ensures Known(x, s', c, k) {
      var i :| 0 <= i < s.sessions[k].reach && i < |s.a.categories|
        && (s.a.categories[i] == c || s.a.categories[i] in ChildrenOf(x, c));
      assert s'.a.categories[i] == s.a.categories[i];
    }
  }

  /** A child's bits are known to the group. */
  lemma ChildKnown(x: Exts, s: State, g: Category, j: nat)
    requires WellFormed(x) && MasksKnown(x, s) && j < MAX_GROUP_SIZE
    ensures AllKnown(x, s, g, ChildMask(x, s.masks, g, j))
  {
    forall k: nat | k in ChildMask(x, s.masks, g, j) ensures Known(x, s, g, k) {
      var d := x(g).group[j].value;
      assert d in ChildrenOf(x, g);
      assert AllKnown(x, s, d, MaskOf(s.masks, d));
      var i :| 0 <= i < s.sessions[k].reach && i < |s.a.categories|
        && (s.a.categories[i] == d || s.a.categories[i] in ChildrenOf(x, d));
      assert ChildrenOf(x, d) == {};
      assert s.a.categories[i] in ChildrenOf(x, g);
    }
  }

  lemma UpdateStaysKnown(x: Exts, s: State, u: Update, scan: bool)
    requires WellFormed(x) && MasksKnown(x, s) && UpdateKnown(x, s, u)
    ensures var next := AfterUpdate(x, s.a, s.masks, u, scan);
            next.Some? ==> UpdateKnown(x, s, next.value)
    ensures forall c :: AllKnown(x, s, c, MaskOf(MasksAfterUpdate(s.masks, u), c))
  {
    if u.Reading? && u.j < MAX_GROUP_SIZE { ChildKnown(x, s, u.g, u.j); }
    forall c ensures AllKnown(x, s, c, MaskOf(MasksAfterUpdate(s.masks, u), c)) {
      assert AllKnown(x, s, c, MaskOf(s.masks, c));
    }
  }

  lemma InitialProvenance(x: Exts)
    ensures ProvenanceInv(x, Initial())
  {
    InitialRegistry(x);
  }

  lemma InstanceStaysOk(x: Exts, s: State, k: nat)
    requires k < |s.sessions| && InstanceOk(s.a, s.sessions[k])
    ensures var me := StepInstance(x, s.a, s.masks, s.sessions[k]);
            InstanceOk(s.a, me) && s.sessions[k].reach <= me.reach && me.uses == s.sessions[k].uses
  {
  }

  /** The masks after a step of instance k, with what the step has learnt. */
  lemma SessionKeepsMasksKnown(x: Exts, s: State, k: nat)
    requires WellFormed(x) && ProvenanceInv(x, s) && k < |s.sessions|
    ensures MasksKnown(x, StepSession(x, s, k))
  {
    var s' := StepSession(x, s, k);
    var pc := s.sessions[k].pc;
    InstanceStaysOk(x, s, k);
    KnownStays(x, s, s');
    forall c ensures AllKnown(x, s', c, MaskOf(s'.masks, c)) {
      assert AllKnown(x, s, c, MaskOf(s.masks, c));
      if SessionUpdate(pc).Some? {
        UpdateStaysKnown(x, s, SessionUpdate(pc).value, true);
      } else if pc.SetupOr? && pc.i < pc.n && s.a.categories[pc.i] == c {
        assert Known(x, s', c, k);
      }
    }
  }

  lemma SessionKeepsProvenance(x: Exts, s: State, k: nat)
    requires WellFormed(x) && ProvenanceInv(x, s) && k < |s.sessions|
    ensures ProvenanceInv(x, StepSession(x, s, k)) && Remembers(s, StepSession(x, s, k))
  {
    var s' := StepSession(x, s, k);
    SessionKeepsRegistry(x, s, k);
    SessionKeepsMasksKnown(x, s, k);
    InstanceStaysOk(x, s, k);
    KnownStays(x, s, s');
    forall t ensures PcOf(s', t) == PcOf(s, t) {
    }
    var u := SessionUpdate(s.sessions[k].pc);
    if u.Some? {
      UpdateStaysKnown(x, s, u.value, true);
    }
    assert SessionsKnown(x, s');
  }

  lemma EventKeepsThreadKnown(x: Exts, s: State, t: Thread)
    requires ThreadKnown(x, s, PcOf(s, t)) && !PcOf(s, t).Adding? && !PcOf(s, t).Refreshing?
    ensures ThreadKnown(x, s, PcOf(StepThread(x, s, t), t))
    ensures StepThread(x, s, t).masks == s.masks && StepThread(x, s, t).a == s.a
  {
  }

  /** A step that changes thread t, and masks and arrays in ways already accounted for. */
  lemma ThreadFrame(x: Exts, s: State, s': State, t: Thread)
    requires ProvenanceInv(x, s) && RegistryInv(x, s') && s'.sessions == s.sessions
    requires s.a.categories <= s'.a.categories && s.a.count <= s'.a.count
    requires forall c :: AllKnown(x, s, c, MaskOf(s'.masks, c))
    requires forall t' :: t' != t ==> PcOf(s', t') == PcOf(s, t')
    requires ThreadKnown(x, s, PcOf(s', t))
    ensures ProvenanceInv(x, s') && Remembers(s, s')
  {
    KnownStays(x, s, s');
    forall t' ensures ThreadKnown(x, s', PcOf(s', t')) {
      assert ThreadKnown(x, s, PcOf(s, t'));
    }
  }

  lemma OtherThreadsStay(x: Exts, s: State, t: Thread)
    ensures StepThread(x, s, t).sessions == s.sessions
    ensures forall t' :: t' != t ==> PcOf(StepThread(x, s, t), t') == PcOf(s, t')
  {
  }

  lemma ThreadStaysKnown(x: Exts, s: State, t: Thread)
    requires WellFormed(x) && ProvenanceInv(x, s)
    ensures ThreadKnown(x, s, PcOf(StepThread(x, s, t), t))
    ensures forall c :: AllKnown(x, s, c, MaskOf(StepThread(x, s, t).masks, c))
  {
    assert ThreadKnown(x, s, PcOf(s, t));
    match PcOf(s, t)
    case Adding(_, _) =>
    case Refreshing(u) => UpdateStaysKnown(x, s, u, false);
    case _ => EventKeepsThreadKnown(x, s, t);
  }

  lemma ThreadKeepsProvenance(x: Exts, s: State, t: Thread)
    requires WellFormed(x) && ProvenanceInv(x, s)
    ensures ProvenanceInv(x, StepThread(x, s, t)) && Remembers(s, StepThread(x, s, t))
  {
    var s' := StepThread(x, s, t);
    ThreadKeepsRegistry(x, s, t);
    ThreadStaysKnown(x, s, t);
    OtherThreadsStay(x, s, t);
    ThreadFrame(x, s, s', t);
  }

  lemma NextKeepsProvenance(x: Exts, s: State, act: Action)
    requires WellFormed(x) && ProvenanceInv(x, s) && Enabled(s, act)
    ensures ProvenanceInv(x, Do(x, s, act)) && Remembers(s, Do(x, s, act))
  {
    var s' := Do(x, s, act);
    NextKeepsRegistry(x, s, act);
    match act
    case DoSession(k) => SessionKeepsProvenance(x, s, k);
    case DoThread(t) => ThreadKeepsProvenance(x, s, t);
    case BeginSetup(_, _) => OtherKeepsProvenance(x, s, s');
    case BeginStop(_) => OtherKeepsProvenance(x, s, s');
    case BeginEvent(t, _) => ThreadFrame(x, s, s', t);
    case EnterContext(t, _) =>
      assert ThreadKnown(x, s, PcOf(s, t));
      ThreadFrame(x, s, s', t);
    case BeginRegister(t, _) => ThreadFrame(x, s, s', t);
    case _ => OtherKeepsProvenance(x, s, s');
  }

  lemma OtherKeepsProvenance(x: Exts, s: State, s': State)
    requires ProvenanceInv(x, s) && RegistryInv(x, s') && Grows(s.a, s'.a)
    requires s'.masks == s.masks && s'.threads == s.threads && |s'.sessions| == |s.sessions|
    requires forall k :: 0 <= k < |s.sessions| ==>
      && s'.sessions[k].reach == s.sessions[k].reach && InstanceOk(s.a, s'.sessions[k])
      && SessionUpdate(s'.sessions[k].pc) in {None, SessionUpdate(s.sessions[k].pc)}
    ensures ProvenanceInv(x, s') && Remembers(s, s')
  {
    KnownStays(x, s, s');
    forall t ensures ThreadKnown(x, s', PcOf(s', t)) {
      assert ThreadKnown(x, s, PcOf(s, t));
    }
    assert MasksKnown(x, s');
  }

  lemma {:induction false} ProvenanceAlways(x: Exts, run: seq<State>, n: nat)
    requires WellFormed(x) && IsRun(x, run) && n < |run|
    ensures ProvenanceInv(x, run[n])
  {
    if n == 0 {
      InitialProvenance(x);
    } else {
      ProvenanceAlways(x, run, n - 1);
      var act := ActionAt(x, run, n - 1);
      NextKeepsProvenance(x, run[n-1], act);
    }
  }
}
