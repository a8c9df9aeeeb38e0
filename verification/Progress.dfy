/** Nothing gets stuck: every operation ends after a bounded number of its own steps, whatever the
    others do, and what a finished registration has achieved. */
module Progress {
  import opened Common
  import opened Filter
  import opened Machine
  import opened Registry
  import opened Slots
  import opened Provenance

  // ---------------------------------------------------------------- extending runs

  function Last(run: seq<State>): State
    requires |run| > 0
  {
    run[|run|-1]
  }

  lemma Extend(x: Exts, run: seq<State>, act: Action) returns (run': seq<State>)
    requires IsRun(x, run) && Enabled(Last(run), act)
    ensures IsRun(x, run') && run' == run + [Do(x, Last(run), act)]
  {
    run' := run + [Do(x, Last(run), act)];
    forall i | 0 <= i < |run'| - 1 ensures StepAt(x, run', i) {
      if i < |run| - 1 {
        assert StepAt(x, run, i);
      } else {
        assert Next(x, run'[i], run'[i+1]);
      }
    }
  }

  // ---------------------------------------------------------------- how far there is to go

  /** What is in progress: the init call, a session's callback, or what a thread is doing. */
  datatype Operation = InitCall | Callback(k: nat) | OfThread(t: Thread)

  /** Own steps left of a scan that goes on to the end of the group array. */
  function ScanRank(u: Update): nat {
    match u
    case Slot(i) => if i <= 32 then 7 * (33 - i) else 0
    case Reading(i, _, j, _) => if i < 32 && j <= 4 then 7 * (33 - i) - 1 - j else 0
  }

  function CallbackRank(pc: SessionPc): nat {
    match pc
    case SetupLoad(_) => 300
    case SetupOr(_, n, i) => 232 + if i <= n <= 64 then n - i else 0
    case SetupScan(_, _, u) => ScanRank(u)
    case StopLoad(_, _) => 300
    case StopAnd(_, _, m, i) => 232 + if i <= m <= 64 then m - i else 0
    case StopScan(u) => ScanRank(u)
    case _ => 0
  }

  function InitRank(init: InitPc): nat {
    match init
    case NoInit => 0
    case AddCategories(todo) => 35 * |todo| + 35
    case AddGroups(todo, i) => 35 * |todo| + if i <= 32 then 33 - i else 1
  }

  function ThreadRank(pc: ThreadPc): nat {
    match pc
    case Free => 0
    case Adding(_, i) => 8 + if i <= 32 then 32 - i else 0
    case Refreshing(Slot(_)) => 7
    case Refreshing(Reading(_, _, j, _)) => if j <= 4 then 5 - j else 0
    case Tracing(_, mask) => 4 * |mask| + 1
    case InContext(_, mask, _) => 4 * |mask| + 4
    case Interning(_, mask, _) => 4 * |mask| + 3
    case Emitting(_, mask, _) => 4 * |mask| + 2
  }

  function Rank(s: State, op: Operation): nat {
    match op
    case InitCall => InitRank(s.a.init)
    case Callback(k) => if k < |s.sessions| then CallbackRank(s.sessions[k].pc) else 0
    case OfThread(t) => ThreadRank(PcOf(s, t))
  }

  predicate InCallback(pc: SessionPc) {
    !pc.Idle? && !pc.Active?
  }

  predicate Busy(s: State, op: Operation) {
    match op
    case InitCall => !s.a.init.NoInit?
    case Callback(k) => k < |s.sessions| && InCallback(s.sessions[k].pc)
    case OfThread(t) => !PcOf(s, t).Free?
  }

  predicate Own(op: Operation, act: Action) {
    match op
    case InitCall => act.DoInit?
    case Callback(k) => act == DoSession(k)
    case OfThread(t) => act == DoThread(t) || (act.EnterContext? && act.t == t)
  }

  // ---------------------------------------------------------------- one step

  lemma ScanLeads(x: Exts, s: State, u: Update)
    requires |s.a.groups| == 32 && UpdateOk(s.a, u)
    ensures var next := AfterUpdate(x, s.a, s.masks, u, true);
      0 < ScanRank(u) <= 231 && (next.Some? ==> ScanRank(next.value) < ScanRank(u))
  {
  }

  /** Every step of a callback brings it nearer to its end. */
  lemma CallbackLeads(x: Exts, s: State, k: nat)
    requires RegistryInv(x, s) && k < |s.sessions| && InstanceOk(s.a, s.sessions[k]) && InCallback(s.sessions[k].pc)
    ensures 0 < CallbackRank(s.sessions[k].pc) <= 300
    ensures CallbackRank(StepSession(x, s, k).sessions[k].pc) < CallbackRank(s.sessions[k].pc)
  {
    var pc := s.sessions[k].pc;
    if SessionUpdate(pc).Some? {
      ScanLeads(x, s, SessionUpdate(pc).value);
    }
  }

  lemma InitLeads(x: Exts, a: Arrays)
    requires ArraysOk(x, a) && !a.init.NoInit?
    ensures InitRank(StepInit(x, a).init) < InitRank(a.init)
  {
  }

  lemma RegistrantLeads(x: Exts, s: State, t: Thread)
    requires RegistryInv(x, s) && (PcOf(s, t).Adding? || PcOf(s, t).Refreshing?)
    ensures 0 < ThreadRank(PcOf(s, t)) <= 40
    ensures ThreadRank(PcOf(StepThread(x, s, t), t)) < ThreadRank(PcOf(s, t))
  {
    if PcOf(s, t).Adding? {
      assert AdderOk(s.a, PcOf(s, t).g, PcOf(s, t).i);
    } else {
      assert RefreshOk(s.a, PcOf(s, t).u);
    }
  }

  /** An event's step does too, unless it is the test whether there is another instance to enter,
      and there is one. */
  lemma EventLeads(x: Exts, s: State, t: Thread, act: Action)
    requires Enabled(s, act) && Own(OfThread(t), act)
    requires !PcOf(s, t).Adding? && !PcOf(s, t).Refreshing? && !PcOf(s, t).Free?
    ensures ThreadRank(PcOf(Do(x, s, act), t)) < ThreadRank(PcOf(s, t)) || Do(x, s, act) == s
    ensures Do(x, s, act) == s ==>
      PcOf(s, t).Tracing? && exists k :: k in PcOf(s, t).mask && Enabled(s, EnterContext(t, k))
  {
    if PcOf(s, t).Tracing? {
      if act.EnterContext? {
        assert PcOf(Do(x, s, act), t).mask == PcOf(s, t).mask - {act.k};
      } else if k :| k in PcOf(s, t).mask && k < |s.sessions| && Live(s.sessions[k].pc) {
        assert Enabled(s, EnterContext(t, k));
      }
    }
  }

  /** Own steps lead to the end, and the last of them reaches it. */
  lemma OwnStepLeads(x: Exts, s: State, op: Operation, act: Action)
    requires RegistryInv(x, s) && InstancesOk(s) && Enabled(s, act) && Own(op, act) && Busy(s, op)
    ensures Rank(Do(x, s, act), op) < Rank(s, op) || Do(x, s, act) == s
    ensures Do(x, s, act) == s ==>
      op.OfThread? && exists k :: Enabled(s, EnterContext(op.t, k)) && Do(x, s, EnterContext(op.t, k)) != s
  {
    match op
    case InitCall => InitLeads(x, s.a);
    case Callback(k) => CallbackLeads(x, s, k);
    case OfThread(t) =>
      if PcOf(s, t).Adding? || PcOf(s, t).Refreshing? {
        RegistrantLeads(x, s, t);
      } else {
        EventLeads(x, s, t, act);
        if Do(x, s, act) == s {
          var k :| k in PcOf(s, t).mask && Enabled(s, EnterContext(t, k));
          assert PcOf(Do(x, s, EnterContext(t, k)), t).InContext?;
        }
      }
  }

  /** Nobody else can move a busy op, forwards or back. */
  lemma OthersLeaveIt(x: Exts, s: State, op: Operation, act: Action)
    requires Enabled(s, act) && !Own(op, act) && Busy(s, op)
    ensures Rank(Do(x, s, act), op) == Rank(s, op) && Busy(Do(x, s, act), op)
  {
  }

  /** There is always a step with which it gets on. */
  lemma NeverStuck(x: Exts, s: State, op: Operation) returns (act: Action)
    requires RegistryInv(x, s) && InstancesOk(s) && Busy(s, op)
    ensures Own(op, act) && Enabled(s, act) && Rank(Do(x, s, act), op) < Rank(s, op)
  {
    match op {
      case InitCall => act := DoInit;
      case Callback(k) => act := DoSession(k);
      case OfThread(t) => act := DoThread(t);
    }
    OwnStepLeads(x, s, op, act);
    if Do(x, s, act) == s {
      var k :| Enabled(s, EnterContext(op.t, k)) && Do(x, s, EnterContext(op.t, k)) != s;
      act := EnterContext(op.t, k);
      OwnStepLeads(x, s, op, act);
    }
  }

  // ---------------------------------------------------------------- theorems over runs

  /** The step from state p is one of the operation's own, and not a mere test. */
  ghost predicate MovesAt(x: Exts, run: seq<State>, p: nat, op: Operation) {
    p + 1 < |run| && run[p+1] != run[p]
    && exists act :: Own(op, act) && Enabled(run[p], act) && run[p+1] == Do(x, run[p], act)
  }

  /** How many steps of its own an operation takes between two states. */
  ghost function Moves(x: Exts, run: seq<State>, n: nat, m: nat, op: Operation): nat
    requires n <= m
    decreases m
  {
    if n == m then 0 else Moves(x, run, n, m - 1, op) + if MovesAt(x, run, m - 1, op) then 1 else 0
  }

  lemma MoveCounts(x: Exts, run: seq<State>, p: nat, op: Operation)
    requires WellFormed(x) && IsRun(x, run) && p + 1 < |run| && Busy(run[p], op)
    ensures Rank(run[p+1], op) + (if MovesAt(x, run, p, op) then 1 else 0) <= Rank(run[p], op)
  {
    ProvenanceAlways(x, run, p);
    if MovesAt(x, run, p, op) {
      var act :| Own(op, act) && Enabled(run[p], act) && run[p+1] == Do(x, run[p], act);
      OwnStepLeads(x, run[p], op, act);
    } else {
      var act := ActionAt(x, run, p);
      if !Own(op, act) {
        OthersLeaveIt(x, run[p], op, act);
      }
    }
  }

  lemma {:induction false} MovesCount(x: Exts, run: seq<State>, n: nat, m: nat, op: Operation)
    requires WellFormed(x) && IsRun(x, run) && n <= m < |run|
    requires forall p: nat :: n <= p < m ==> Busy(run[p], op)
    ensures Moves(x, run, n, m, op) + Rank(run[m], op) <= Rank(run[n], op)
    decreases m
  {
    if n < m {
      MovesCount(x, run, n, m - 1, op);
      MoveCounts(x, run, m - 1, op);
    }
  }

  /** Wait freedom: whatever the others do meanwhile, a session's callback is over after at most
      300 steps of its own, a registration after 40, an init call after 35 for every object of its
      list and 35 more, and an event after 4 for every bit of its mask and 1 more. */
  lemma EndsAfterItsOwnSteps(x: Exts, run: seq<State>, n: nat, m: nat, op: Operation)
    requires WellFormed(x) && IsRun(x, run) && n <= m < |run|
    requires forall p: nat :: n <= p < m ==> Busy(run[p], op)
    ensures op.Callback? ==> Moves(x, run, n, m, op) <= 300
    ensures op.InitCall? && run[n].a.init.AddCategories? ==>
      Moves(x, run, n, m, op) <= 35 * |run[n].a.init.todo| + 35
    ensures op.OfThread? && PcOf(run[n], op.t).Adding? ==> Moves(x, run, n, m, op) <= 40
    ensures op.OfThread? && PcOf(run[n], op.t).Tracing? ==>
      Moves(x, run, n, m, op) <= 4 * |PcOf(run[n], op.t).mask| + 1
  {
    MovesCount(x, run, n, m, op);
    if op.Callback? && n < m {
      ProvenanceAlways(x, run, n);
      assert Busy(run[n], op);
      CallbackLeads(x, run[n], op.k);
    }
  }

  /** And it can always get there: every reachable state is continued, by steps of the operation
      alone, to one in which it is over. */
  lemma {:induction false} CanFinish(x: Exts, run: seq<State>, op: Operation) returns (run': seq<State>)
    requires WellFormed(x) && IsRun(x, run)
    ensures IsRun(x, run') && run <= run' && !Busy(Last(run'), op)
    ensures forall p: nat :: |run| - 1 <= p < |run'| - 1 ==> MovesAt(x, run', p, op)
    decreases Rank(Last(run), op)
  {
    if !Busy(Last(run), op) {
      run' := run;
    } else {
      ProvenanceAlways(x, run, |run| - 1);
      var act := NeverStuck(x, Last(run), op);
      var next := Extend(x, run, act);
      run' := CanFinish(x, next, op);
      forall p: nat | |run| - 1 <= p < |run'| - 1 ensures MovesAt(x, run', p, op) {
        if p == |run| - 1 {
          assert run'[p] == next[p] && run'[p+1] == next[p+1];
        }
      }
    }
  }

  // ---------------------------------------------------------------- what a registration achieves

  /** Thread t registers group g: it is trying slots, or has put g into the array. */
  ghost predicate Registers(s: State, t: Thread, g: Category) {
    (PcOf(s, t).Adding? && PcOf(s, t).g == g) || (PcOf(s, t).Refreshing? && InGroups(s.a, g))
  }

  ghost predicate Refused(s: State) {
    forall i: nat :: i < 32 ==> GroupAt(s.a, i).Some?
  }

  lemma StaysInGroups(a: Arrays, a': Arrays, g: Category)
    requires KeepsSlots(a.groups, a'.groups) && InGroups(a, g)
    ensures InGroups(a', g)
  {
    var i :| 0 <= i < |a.groups| && a.groups[i] == Some(g);
    assert a'.groups[i] == Some(g);
  }

  lemma OthersLeavePc(x: Exts, s: State, act: Action, t: Thread)
    requires Enabled(s, act) && !Own(OfThread(t), act) && !PcOf(s, t).Free?
    ensures PcOf(Do(x, s, act), t) == PcOf(s, t)
  {
  }

  lemma OthersLeaveRegistrant(x: Exts, s: State, act: Action, t: Thread, g: Category)
    requires RegistryInv(x, s) && Enabled(s, act) && Registers(s, t, g) && act != DoThread(t)
    ensures Registers(Do(x, s, act), t, g)
  {
    NextKeepsRegistry(x, s, act);
    OthersLeavePc(x, s, act, t);
    if InGroups(s.a, g) {
      StaysInGroups(s.a, Do(x, s, act).a, g);
    }
  }

  lemma RegistrantSteps(x: Exts, s: State, t: Thread, g: Category)
    requires RegistryInv(x, s) && Registers(s, t, g)
    ensures var s' := StepThread(x, s, t);
      Registers(s', t, g) || (PcOf(s', t).Free? && (InGroups(s'.a, g) || Refused(s')))
  {
    if PcOf(s, t).Adding? {
      var i := PcOf(s, t).i;
      assert AdderOk(s.a, g, i);
      if i < 32 && s.a.groups[i].None? {
        assert StepThread(x, s, t).a.groups[i] == Some(g);
      }
    }
  }

  lemma RegistersNext(x: Exts, run: seq<State>, n: nat, t: Thread, g: Category)
    requires IsRun(x, run) && n + 1 < |run| && Registers(run[n], t, g)
    ensures Registers(run[n+1], t, g) || (PcOf(run[n+1], t).Free? && (InGroups(run[n+1].a, g) || Refused(run[n+1])))
  {
    RegistryAlways(x, run, n);
    var act := ActionAt(x, run, n);
    if act == DoThread(t) {
      RegistrantSteps(x, run[n], t, g);
    } else {
      OthersLeaveRegistrant(x, run[n], act, t, g);
    }
  }

  lemma {:induction false} RegistersUntil(x: Exts, run: seq<State>, n: nat, m: nat, t: Thread, g: Category)
    requires IsRun(x, run) && n <= m < |run| && Registers(run[n], t, g)
    requires forall p: nat :: n <= p < m ==> !PcOf(run[p], t).Free?
    ensures Registers(run[m], t, g) || (PcOf(run[m], t).Free? && (InGroups(run[m].a, g) || Refused(run[m])))
    decreases m
  {
    if n < m {
      RegistersUntil(x, run, n, m - 1, t, g);
      RegistersNext(x, run, m - 1, t, g);
    }
  }

  /** When percetto_register_group_category returns, the group is in the array, or all 32 slots
      are taken. */
  lemma RegistrationEnds(x: Exts, run: seq<State>, n: nat, m: nat, t: Thread, g: Category)
    requires IsRun(x, run) && n < m < |run| && Enabled(run[n], BeginRegister(t, g))
    requires run[n+1] == Do(x, run[n], BeginRegister(t, g))
    requires PcOf(run[m], t).Free? && forall p: nat :: n < p < m ==> !PcOf(run[p], t).Free?
    ensures (exists i: nat :: i < 32 && GroupAt(run[m].a, i) == Some(g))
            || forall i: nat :: i < 32 ==> GroupAt(run[m].a, i).Some?
  {
    RegistersUntil(x, run, n + 1, m, t, g);
    if InGroups(run[m].a, g) {
      RegistryAlways(x, run, m);
      var i :| 0 <= i < |run[m].a.groups| && run[m].a.groups[i] == Some(g);
      assert GroupAt(run[m].a, i) == Some(g);
    }
  }

  // ---------------------------------------------------------------- how callbacks end

  predicate SettingUp(pc: SessionPc, parsed: Option<Config>) {
    (pc.SetupLoad? || pc.SetupOr? || pc.SetupScan?) && pc.parsed == parsed
  }

  predicate Stopping(pc: SessionPc) {
    pc.StopLoad? || pc.StopAnd? || pc.StopScan?
  }

  lemma CallbackStep(x: Exts, s: State, act: Action, k: nat, parsed: Option<Config>)
    requires Enabled(s, act) && k < |s.sessions|
    ensures |Do(x, s, act).sessions| == |s.sessions|
    ensures var pc, pc' := s.sessions[k].pc, Do(x, s, act).sessions[k].pc;
      && (SettingUp(pc, parsed) ==> SettingUp(pc', parsed) || (pc'.Active? && pc'.parsed == parsed))
      && (Stopping(pc) ==> Stopping(pc') || pc'.Idle?)
  {
  }

  lemma CallbackNext(x: Exts, run: seq<State>, n: nat, k: nat, parsed: Option<Config>)
    requires IsRun(x, run) && n + 1 < |run| && k < |run[n].sessions|
    ensures |run[n+1].sessions| == |run[n].sessions|
    ensures var pc, pc' := run[n].sessions[k].pc, run[n+1].sessions[k].pc;
      && (SettingUp(pc, parsed) ==> SettingUp(pc', parsed) || (pc'.Active? && pc'.parsed == parsed))
      && (Stopping(pc) ==> Stopping(pc') || pc'.Idle?)
  {
    var act := ActionAt(x, run, n);
    CallbackStep(x, run[n], act, k, parsed);
  }

  lemma {:induction false} CallbackUntil(x: Exts, run: seq<State>, n: nat, m: nat, k: nat, parsed: Option<Config>)
    requires IsRun(x, run) && n <= m < |run| && k < |run[n].sessions|
    requires forall p: nat :: n <= p < m ==> Busy(run[p], Callback(k))
    ensures |run[m].sessions| == |run[n].sessions|
    ensures var pc, pc' := run[n].sessions[k].pc, run[m].sessions[k].pc;
      && (SettingUp(pc, parsed) ==> SettingUp(pc', parsed) || (pc'.Active? && pc'.parsed == parsed))
      && (Stopping(pc) ==> Stopping(pc') || pc'.Idle?)
    decreases m
  {
    if n < m {
      CallbackUntil(x, run, n, m - 1, k, parsed);
      CallbackNext(x, run, m - 1, k, parsed);
    }
  }

  /** When a setup is over, the session is active with the configuration it was set up with. */
  lemma SetupEnds(x: Exts, run: seq<State>, n: nat, m: nat, k: nat, parsed: Option<Config>)
    requires IsRun(x, run) && n < m < |run| && Enabled(run[n], BeginSetup(k, parsed))
    requires run[n+1] == Do(x, run[n], BeginSetup(k, parsed))
    requires !Busy(run[m], Callback(k)) && forall p: nat :: n < p < m ==> Busy(run[p], Callback(k))
    ensures k < |run[m].sessions| && run[m].sessions[k].pc.Active? && run[m].sessions[k].pc.parsed == parsed
  {
    CallbackUntil(x, run, n + 1, m, k, parsed);
  }

  /** When a stop is over, the index is free. */
  lemma StopEnds(x: Exts, run: seq<State>, n: nat, m: nat, k: nat)
    requires IsRun(x, run) && n < m < |run| && Enabled(run[n], BeginStop(k))
    requires run[n+1] == Do(x, run[n], BeginStop(k))
    requires !Busy(run[m], Callback(k)) && forall p: nat :: n < p < m ==> Busy(run[p], Callback(k))
    ensures k < |run[m].sessions| && run[m].sessions[k].pc.Idle?
  {
    CallbackUntil(x, run, n + 1, m, k, None);
  }
}
