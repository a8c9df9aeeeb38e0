/** The comment at src/percetto.cc:313 promises that group updates may run simultaneously. Two
    complete runs show how a group's mask nevertheless stays wrong once everyone is done: an
    older sum stored over a newer one, and a group added by an init call while a session is
    active. Stores.QuietGroupIsExactExactlyWhen says exactly when a mask is wrong. */
module LostUpdates {
  import opened Common
  import opened Filter
  import opened Machine
  import opened Registry
  import opened GroupMasks
  import opened Progress

  const CHILD: Category := 0
  const GROUP: Category := 1
  const OTHER: Category := 2
  const SESSION := 0
  const THREAD: Thread := 0

  /** A group of two categories, of which only the first is registered. */
  function Program(): Exts {
    c => if c == GROUP
         then Ext(None, [None, None, None, None], [Some(CHILD), Some(OTHER), None, None])
         else Ext(Some("cat"), [None, None, None, None], [None, None, None, None])
  }

  /** The empty configuration enables every category without a "slow" or "debug" tag. */
  const EVERYTHING: Option<Config> := Some(Config([], [], [], []))

  lemma WantedFacts()
    ensures Wants(Program(), EVERYTHING, CHILD)
  {
    FilterRefinement("cat", Program()(CHILD).tags, EVERYTHING.value);
  }

  lemma ProgramFacts()
    ensures WellFormed(Program())
    ensures Wants(Program(), EVERYTHING, CHILD)
    ensures forall masks :: Sum(Program(), masks, GROUP) == MaskOf(masks, CHILD) + MaskOf(masks, OTHER)
  {
    WantedFacts();
    forall masks ensures Sum(Program(), masks, GROUP) == MaskOf(masks, CHILD) + MaskOf(masks, OTHER) {
      var x := Program();
      assert PartialSum(x, masks, GROUP, 1) == PartialSum(x, masks, GROUP, 0) + ChildMask(x, masks, GROUP, 0);
      assert PartialSum(x, masks, GROUP, 2) == PartialSum(x, masks, GROUP, 1) + ChildMask(x, masks, GROUP, 1);
      assert PartialSum(x, masks, GROUP, 3) == PartialSum(x, masks, GROUP, 2) + ChildMask(x, masks, GROUP, 2);
    }
  }

  /** All that matters of a state: whether the group is in slot 0, the init call, the callback
      of session 0, the program counter of thread 0, and the masks of child and group. */
  ghost predicate View(s: State, init: InitPc, added: bool, session: SessionPc, thread: ThreadPc,
                       child: Mask, group: Mask)
  {
    && s.a.categories == [CHILD] && s.a.count == 1 && s.a.init == init
    && s.a.used == (if added || thread.Adding? || Todo(s.a) != [] then {CHILD, GROUP} else {CHILD})
    && |s.a.groups| == MAX_GROUP_CATEGORIES
    && s.a.groups[0] == (if added then Some(GROUP) else None)
    && (forall i :: 1 <= i < MAX_GROUP_CATEGORIES ==> s.a.groups[i] == None)
    && |s.sessions| == MAX_SESSIONS && s.sessions[SESSION].pc == session
    && (forall k :: 1 <= k < MAX_SESSIONS ==> s.sessions[k].pc == Idle)
    && PcOf(s, THREAD) == thread && (forall t :: t != THREAD ==> PcOf(s, t) == Free)
    && MaskOf(s.masks, CHILD) == child && MaskOf(s.masks, GROUP) == group && MaskOf(s.masks, OTHER) == {}
    && s.streams == map[]
  }

  /** An update of the group reads the child first and then nothing. */
  function NextUpdate(u: Update, added: bool, child: Mask, scan: bool): Option<Update> {
    match u
    case Slot(i) => if i == 0 && added then Some(Reading(0, GROUP, 0, {})) else None
    case Reading(i, g, j, sum) =>
      if j < MAX_GROUP_SIZE then Some(Reading(i, g, j + 1, if j == 0 then sum + child else sum))
      else if scan then Some(Slot(i + 1)) else None
  }

  lemma UpdateInView(s: State, init: InitPc, added: bool, session: SessionPc, thread: ThreadPc,
                     child: Mask, group: Mask, u: Update, scan: bool)
    requires View(s, init, added, session, thread, child, group)
    requires u.Reading? ==> u.g == GROUP
    requires u.Slot? ==> u.i < MAX_GROUP_CATEGORIES
    ensures AfterUpdate(Program(), s.a, s.masks, u, scan) == NextUpdate(u, added, child, scan)
  {
    if u.Reading? && 0 < u.j < MAX_GROUP_SIZE {
      assert ChildMask(Program(), s.masks, GROUP, u.j) == {};
      assert u.sum + {} == u.sum;
    }
  }

  /** One step of session 0's scan. */
  lemma ScanStep(run: seq<State>, added: bool, u: Update, thread: ThreadPc, child: Mask, group: Mask)
      returns (run': seq<State>)
    requires IsRun(Program(), run)
    requires View(Last(run), NoInit, added, SetupScan(EVERYTHING, 1, u), thread, child, group)
    requires u.Reading? ==> u.g == GROUP
    requires u.Slot? ==> u.i < MAX_GROUP_CATEGORIES
    ensures IsRun(Program(), run')
    ensures var next := NextUpdate(u, added, child, true);
            View(Last(run'), NoInit, added,
                 if next.Some? then SetupScan(EVERYTHING, 1, next.value) else Active(EVERYTHING, 1),
                 thread, child, if u.Reading? && u.j >= MAX_GROUP_SIZE then u.sum else group)
  {
    var s := Last(run);
    UpdateInView(s, NoInit, added, SetupScan(EVERYTHING, 1, u), thread, child, group, u, true);
    run' := Extend(Program(), run, DoSession(SESSION));
    assert forall t :: PcOf(Last(run'), t) == PcOf(s, t);
  }

  /** One step of the registrant's update. */
  lemma RefreshStep(run: seq<State>, session: SessionPc, u: Update, child: Mask, group: Mask)
      returns (run': seq<State>)
    requires IsRun(Program(), run)
    requires View(Last(run), NoInit, true, session, Refreshing(u), child, group)
    requires u.Reading? ==> u.g == GROUP
    requires u.Slot? ==> u.i < MAX_GROUP_CATEGORIES
    ensures IsRun(Program(), run')
    ensures var next := NextUpdate(u, true, child, false);
            View(Last(run'), NoInit, true, session,
                 if next.Some? then Refreshing(next.value) else Free,
                 child, if u.Reading? && u.j >= MAX_GROUP_SIZE then u.sum else group)
  {
    var s := Last(run);
    UpdateInView(s, NoInit, true, session, Refreshing(u), child, group, u, false);
    run' := Extend(Program(), run, DoThread(THREAD));
    assert forall t :: t != THREAD ==> PcOf(Last(run'), t) == PcOf(s, t);
  }

  /** The category is registered; the group is not. */
  lemma Registered() returns (run: seq<State>)
    ensures IsRun(Program(), run) && View(Last(run), NoInit, false, Idle, Free, {}, {})
  {
    var x := Program();
    run := [Initial()];
    run := Extend(x, run, BeginInit([CHILD]));
    assert Last(run).a.init == AddCategories([CHILD]) && Last(run).a.used == {CHILD};
    run := Extend(x, run, DoInit);
    assert Last(run).a.categories == [CHILD] && Last(run).a.init == AddCategories([]);
    run := Extend(x, run, DoInit);
    assert Last(run).a.init == AddGroups([], 0) && Last(run).a.count == 1;
    run := Extend(x, run, DoInit);
  }

  /** One step of session 0 before its scan. */
  lemma SetupStep(run: seq<State>, added: bool, i: nat, thread: ThreadPc)
      returns (run': seq<State>)
    requires i <= 1 && IsRun(Program(), run)
    requires View(Last(run), NoInit, added, SetupOr(EVERYTHING, 1, i), thread, if i == 0 then {} else {SESSION}, {})
    ensures IsRun(Program(), run')
    ensures View(Last(run'), NoInit, added,
                 if i == 0 then SetupOr(EVERYTHING, 1, 1) else SetupScan(EVERYTHING, 1, Slot(0)), thread, {SESSION}, {})
  {
    WantedFacts();
    run' := Extend(Program(), run, DoSession(SESSION));
    assert forall t :: PcOf(Last(run'), t) == PcOf(Last(run), t);
  }

  lemma SetupLoads(run: seq<State>, added: bool, thread: ThreadPc) returns (run': seq<State>)
    requires IsRun(Program(), run) && View(Last(run), NoInit, added, Idle, thread, {}, {})
    ensures IsRun(Program(), run')
    ensures View(Last(run'), NoInit, added, SetupOr(EVERYTHING, 1, 0), thread, {}, {})
  {
    var begun := Extend(Program(), run, BeginSetup(SESSION, EVERYTHING));
    assert forall t :: PcOf(Last(begun), t) == PcOf(Last(run), t);
    run' := Extend(Program(), begun, DoSession(SESSION));
    assert forall t :: PcOf(Last(run'), t) == PcOf(Last(begun), t);
  }

  /** Session 0 is set up while the thread stands still: its bit reaches the child and, if the
      group has been added, the group. */
  lemma SetupCompletes(run: seq<State>, added: bool, thread: ThreadPc) returns (run': seq<State>)
    requires IsRun(Program(), run) && View(Last(run), NoInit, added, Idle, thread, {}, {})
    ensures IsRun(Program(), run')
    ensures View(Last(run'), NoInit, added, Active(EVERYTHING, 1), thread, {SESSION}, if added then {SESSION} else {})
  {
    run' := SetupLoads(run, added, thread);
    run' := SetupStep(run', added, 0, thread);
    run' := SetupStep(run', added, 1, thread);
    run' := ScanCompletes(run', added, thread);
  }

  lemma ScanCompletes(run: seq<State>, added: bool, thread: ThreadPc) returns (run': seq<State>)
    requires IsRun(Program(), run)
    requires View(Last(run), NoInit, added, SetupScan(EVERYTHING, 1, Slot(0)), thread, {SESSION}, {})
    ensures IsRun(Program(), run')
    ensures View(Last(run'), NoInit, added, Active(EVERYTHING, 1), thread, {SESSION}, if added then {SESSION} else {})
  {
    run' := ScanStep(run, added, Slot(0), thread, {SESSION}, {});
    if added {
      var j, sum := 0, {};
      while j < MAX_GROUP_SIZE
        invariant j <= MAX_GROUP_SIZE && IsRun(Program(), run')
        invariant sum == if j == 0 then {} else {SESSION}
        invariant View(Last(run'), NoInit, true,
                       SetupScan(EVERYTHING, 1, Reading(0, GROUP, j, sum)), thread, {SESSION}, {})
      {
        run' := ScanStep(run', true, Reading(0, GROUP, j, sum), thread, {SESSION}, {});
        j, sum := j + 1, if j == 0 then sum + {SESSION} else sum;
      }
      run' := ScanStep(run', true, Reading(0, GROUP, j, sum), thread, {SESSION}, {});
      run' := ScanStep(run', true, Slot(1), thread, {SESSION}, {SESSION});
    }
  }

  /** The registrant has added the group and read its child. */
  lemma RegistrantReads(run: seq<State>) returns (run': seq<State>)
    requires IsRun(Program(), run) && View(Last(run), NoInit, false, Idle, Free, {}, {})
    ensures IsRun(Program(), run')
    ensures View(Last(run'), NoInit, true, Idle, Refreshing(Reading(0, GROUP, 1, {})), {}, {})
  {
    var begun := Extend(Program(), run, BeginRegister(THREAD, GROUP));
    var s := Last(begun);
    forall t | t != THREAD ensures PcOf(s, t) == Free {
      assert PcOf(Last(run), t) == Free;
    }
    run' := Extend(Program(), begun, DoThread(THREAD));
    var s' := Last(run');
    forall t | t != THREAD ensures PcOf(s', t) == Free {
      assert PcOf(s, t) == Free;
    }
    run' := RefreshStep(run', Idle, Slot(0), {}, {});
    var none: Mask := {};
    assert none + none == none;
    run' := RefreshStep(run', Idle, Reading(0, GROUP, 0, none), none, none);
  }

  /** The registrant goes on and stores what it has read. */
  lemma RegistrantStores(run: seq<State>, session: SessionPc, masks: Mask) returns (run': seq<State>)
    requires IsRun(Program(), run)
    requires View(Last(run), NoInit, true, session, Refreshing(Reading(0, GROUP, 1, {})), masks, masks)
    ensures IsRun(Program(), run')
    ensures View(Last(run'), NoInit, true, session, Free, masks, {})
  {
    run' := run;
    var j := 1;
    while j < MAX_GROUP_SIZE
      invariant 1 <= j <= MAX_GROUP_SIZE && IsRun(Program(), run')
      invariant View(Last(run'), NoInit, true, session, Refreshing(Reading(0, GROUP, j, {})), masks, masks)
    {
      run' := RefreshStep(run', session, Reading(0, GROUP, j, {}), masks, masks);
      j := j + 1;
    }
    run' := RefreshStep(run', session, Reading(0, GROUP, j, {}), masks, masks);
  }

  /** Nobody is updating slot 0 or bound to, and the mask of its group is not the OR of its
      children's masks. */
  ghost predicate Wrong(x: Exts, s: State) {
    Quiet(s, 0) && GroupAt(s.a, 0).Some? && !MaskIsSum(x, s, 0)
  }

  lemma WrongView(s: State)
    requires View(s, NoInit, true, Active(EVERYTHING, 1), Free, {SESSION}, {})
    ensures Wrong(Program(), s)
  {
    ProgramFacts();
    forall who: Actor ensures UpdateOf(s, who).None? && !Owes(s, who, 0) {
    }
  }

  /** A registrant that read the children before a setup stores its sum after it. */
  lemma StaleStoreWins() returns (run: seq<State>)
    ensures WellFormed(Program()) && IsRun(Program(), run) && Wrong(Program(), Last(run))
  {
    ProgramFacts();
    run := Registered();
    run := RegistrantReads(run);
    run := SetupCompletes(run, true, Refreshing(Reading(0, GROUP, 1, {})));
    run := RegistrantStores(run, Active(EVERYTHING, 1), {SESSION});
    WrongView(Last(run));
  }

  /** An init call step in a run seen through View. */
  lemma InitStep(run: seq<State>, act: Action, init: InitPc, added: bool, init': InitPc, added': bool)
      returns (run': seq<State>)
    requires IsRun(Program(), run)
    requires View(Last(run), init, added, Active(EVERYTHING, 1), Free, {SESSION}, {})
    requires
      || (act == BeginInit([GROUP]) && init == NoInit && !added && init' == AddCategories([GROUP]) && !added')
      || (act == DoInit && init == AddCategories([GROUP]) && !added && init' == AddGroups([GROUP], 0) && !added')
      || (act == DoInit && init == AddGroups([GROUP], 0) && !added && init' == AddGroups([], 0) && added')
      || (act == DoInit && init == AddGroups([], 0) && added && init' == NoInit && added')
    ensures IsRun(Program(), run')
    ensures View(Last(run'), init', added', Active(EVERYTHING, 1), Free, {SESSION}, {})
  {
    assert [GROUP][1..] == [];
    run' := Extend(Program(), run, act);
    assert forall t :: PcOf(Last(run'), t) == PcOf(Last(run), t);
  }

  /** A second init call adds the group while the session is active. */
  lemma InitAddsStaleGroup() returns (run: seq<State>)
    ensures WellFormed(Program()) && IsRun(Program(), run) && Wrong(Program(), Last(run))
  {
    ProgramFacts();
    run := Registered();
    run := SetupCompletes(run, false, Free);
    run := InitStep(run, BeginInit([GROUP]), NoInit, false, AddCategories([GROUP]), false);
    run := InitStep(run, DoInit, AddCategories([GROUP]), false, AddGroups([GROUP], 0), false);
    run := InitStep(run, DoInit, AddGroups([GROUP], 0), false, AddGroups([], 0), true);
    run := InitStep(run, DoInit, AddGroups([], 0), true, NoInit, true);
    WrongView(Last(run));
  }
}
