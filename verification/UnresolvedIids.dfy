/** A run whose events carry category ids that were never interned: for a child of a group that
    was not registered when the event was written, and, once it is registered, for one that came
    too late for the last interning packet. */
module UnresolvedIids {
  import opened Common
  import opened Machine
  import opened Registry
  import opened Provenance
  import opened Streams
  import opened Progress
  import opened LostUpdates

  /** The group is registered, the session is active, and the thread is idle. */
  lemma GroupActive() returns (run: seq<State>)
    ensures IsRun(Program(), run)
    ensures View(Last(run), NoInit, true, Active(EVERYTHING, 1), Free, {SESSION}, {SESSION})
  {
    run := Registered();
    run := RegistrantReads(run);
    run := RegistrantStores(run, Idle, {});
    run := SetupCompletes(run, true, Free);
  }

  /** The iids of an event of the group, given which categories are registered. */
  lemma GroupIids(run: seq<State>)
    requires IsRun(Program(), run)
    ensures var a := Last(run).a;
      && EventIids(Program(), a, GROUP) == map[CHILD := IidOf(a, CHILD), OTHER := IidOf(a, OTHER)]
      && (forall i :: 0 <= i < |a.categories| ==> IidOf(a, a.categories[i]) == i + 1)
      && (OTHER !in a.categories ==> IidOf(a, OTHER) == 0)
  {
    var x, a := Program(), Last(run).a;
    RegistryAlways(x, run, |run| - 1);
    assert CategoriesNamed(x, a) && x(GROUP).name.None?;
    assert ChildrenOf(x, GROUP) == {CHILD, OTHER} by {
      assert x(GROUP).group[0].value in ChildrenOf(x, GROUP) && x(GROUP).group[1].value in ChildrenOf(x, GROUP);
    }
  }

  /** The packet sequence of the thread in the session's current use of its index. */
  function Sequence(s: State): StreamId
    requires |s.sessions| > SESSION
  {
    StreamId(THREAD, SESSION, s.sessions[SESSION].uses)
  }

  /** What tracing needs: an idle thread, an active session, and its bit in the group's mask. */
  ghost predicate CanTrace(s: State) {
    && |s.sessions| > SESSION && s.sessions[SESSION].pc == Active(EVERYTHING, 1)
    && PcOf(s, THREAD) == Free && MaskOf(s.masks, GROUP) == {SESSION}
  }

  /** Steps of the thread change nothing but itself and its sequence. */
  ghost predicate OnlyTraces(s: State, s': State, pc: ThreadPc) {
    s'.a == s.a && s'.masks == s.masks && s'.sessions == s.sessions && PcOf(s', THREAD) == pc
  }

  lemma BeginsEvent(run: seq<State>) returns (run': seq<State>)
    requires IsRun(Program(), run) && CanTrace(Last(run))
    ensures IsRun(Program(), run')
    ensures var id := Sequence(Last(run));
      && OnlyTraces(Last(run), Last(run'), InContext(GROUP, {}, id)) && id in Last(run').streams
      && (if id in Last(run).streams then Last(run').streams[id] == Last(run).streams[id]
          else Last(run').streams[id].needUpdate && Last(run').streams[id].log == [])
  {
    run' := Extend(Program(), run, BeginEvent(THREAD, GROUP));
    assert PcOf(Last(run'), THREAD) == Tracing(GROUP, {SESSION});
    run' := Extend(Program(), run', EnterContext(THREAD, SESSION));
    var none: Mask := {SESSION} - {SESSION};
    assert none == {};
  }

  /** The thread interns if its sequence needs it, and writes the event. */
  lemma WritesEvent(run: seq<State>, id: StreamId) returns (run': seq<State>)
    requires IsRun(Program(), run) && id in Last(run).streams
    requires PcOf(Last(run), THREAD) == InContext(GROUP, {}, id) && Last(run).a.count == |Last(run).a.categories|
    ensures IsRun(Program(), run')
    ensures OnlyTraces(Last(run), Last(run'), Tracing(GROUP, {})) && id in Last(run').streams
    ensures var stream, a := Last(run).streams[id], Last(run).a;
      && !Last(run').streams[id].needUpdate
      && Last(run').streams[id].log ==
           stream.log + (if stream.needUpdate then [Cleared(a.categories)] else [])
           + [Event(GROUP, EventIids(Program(), a, GROUP))]
  {
    var x := Program();
    var interned := Last(run).a.categories;
    assert interned[..Last(run).a.count] == interned;
    run' := Extend(x, run, DoThread(THREAD));
    if Last(run).streams[id].needUpdate {
      run' := Extend(x, run', DoThread(THREAD));
      assert Last(run').streams[id].log == Last(run).streams[id].log + [Cleared(interned)];
    }
    assert PcOf(Last(run'), THREAD) == Emitting(GROUP, {}, id);
    run' := Extend(x, run', DoThread(THREAD));
  }

  /** An event of the group, whose second child has not been registered: its iid is 0. */
  lemma FirstEvent() returns (run: seq<State>, id: StreamId)
    ensures IsRun(Program(), run) && id in Last(run).streams && |Last(run).sessions| > SESSION
    ensures id == Sequence(Last(run)) && !Last(run).streams[id].needUpdate
    ensures Last(run).streams[id].log == [Cleared([CHILD]), Event(GROUP, map[CHILD := 1, OTHER := 0])]
    ensures Last(run).a.init == NoInit && Last(run).a.used == {CHILD, GROUP} && Last(run).a.categories == [CHILD]
    ensures Last(run).sessions[SESSION].pc == Active(EVERYTHING, 1) && MaskOf(Last(run).masks, GROUP) == {SESSION}
    ensures PcOf(Last(run), THREAD) == Tracing(GROUP, {})
  {
    run := GroupActive();
    GroupIids(run);
    assert Last(run).a.categories[0] == CHILD;
    id := Sequence(Last(run));
    run := BeginsEvent(run);
    run := WritesEvent(run, id);
  }

  /** The second child is registered by a later init call; then another event is traced. */
  lemma SecondEvent() returns (run: seq<State>, id: StreamId)
    ensures IsRun(Program(), run) && id in Last(run).streams && Last(run).a.categories == [CHILD, OTHER]
    ensures Last(run).streams[id].log ==
      [Cleared([CHILD]), Event(GROUP, map[CHILD := 1, OTHER := 0]), Event(GROUP, map[CHILD := 1, OTHER := 2])]
  {
    run, id := FirstEvent();
    run := LateInit(run);
    GroupIids(run);
    assert Last(run).a.categories[0] == CHILD && Last(run).a.categories[1] == OTHER;
    var log := Last(run).streams[id].log;
    run := BeginsEvent(run);
    run := WritesEvent(run, id);
    assert log + [] == log;
  }

  lemma LateInit(run: seq<State>) returns (run': seq<State>)
    requires IsRun(Program(), run) && PcOf(Last(run), THREAD) == Tracing(GROUP, {})
    requires Last(run).a.init == NoInit && Last(run).a.used == {CHILD, GROUP} && Last(run).a.categories == [CHILD]
    ensures IsRun(Program(), run') && PcOf(Last(run'), THREAD) == Free
    ensures Last(run').a.categories == [CHILD, OTHER] && Last(run').a.count == 2
    ensures Last(run').streams == Last(run).streams && Last(run').masks == Last(run).masks
    ensures Last(run').sessions == Last(run).sessions
  {
    var x := Program();
    run' := Extend(x, run, DoThread(THREAD));
    run' := Extend(x, run', BeginInit([OTHER]));
    run' := Extend(x, run', DoInit);
    assert Last(run').a.categories == [CHILD, OTHER] && Last(run').a.init == AddCategories([]);
    run' := Extend(x, run', DoInit);
    assert Last(run').a.init == AddGroups([], 0) && Last(run').a.count == 2;
    run' := Extend(x, run', DoInit);
  }

  /** A complete run with two events of one group that do not resolve: in the first, the id of
      an unregistered child is 0; in the second, the child is registered, with id 2, but the
      sequence has not interned it. */
  lemma EventsLeftUnresolved() returns (run: seq<State>, id: StreamId)
    ensures WellFormed(Program()) && IsRun(Program(), run) && |LogOf(Last(run), id)| == 3
    ensures var log := LogOf(Last(run), id);
      && log[1].Event? && OTHER in log[1].iids && !Resolves(Table(log[..1]), log[1].iids[OTHER], OTHER)
      && log[2].Event? && OTHER in log[2].iids && !Resolves(Table(log[..2]), log[2].iids[OTHER], OTHER)
      && OTHER in Last(run).a.categories && log[2].iids[OTHER] == IidOf(Last(run).a, OTHER)
  {
    ProgramFacts();
    run, id := SecondEvent();
    GroupIids(run);
    assert Last(run).a.categories[1] == OTHER;
    var log := LogOf(Last(run), id);
    assert log[..1] == [Cleared([CHILD])];
    assert log[..2][..1] == log[..1];
  }
}
