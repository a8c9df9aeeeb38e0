/** Every category iid in an event packet has been interned in that packet sequence. */
module Streams {
  import opened Common
  import opened Machine
  import opened Registry
  import opened Provenance

  // ---------------------------------------------------------------- init calls publish all or nothing

  /** No init call has stored categories on both sides of n. */
  ghost predicate Boundary(a: Arrays, n: nat) {
    n <= |a.batch| && forall i, j :: 0 <= i < n <= j < |a.batch| ==> a.batch[i] != a.batch[j]
  }

  ghost predicate BatchesOk(a: Arrays) {
    && |a.batch| == |a.categories| && a.count <= |a.batch|
    && (forall i :: 0 <= i < |a.batch| ==> a.batch[i] <= a.inits)
    && (a.init.AddCategories? ==>
          && (forall i :: 0 <= i < a.count ==> a.batch[i] < a.inits)
          && (forall i :: a.count <= i < |a.batch| ==> a.batch[i] == a.inits))
  }

  /** A boundary at or below the published count. */
  ghost predicate Landmark(a: Arrays, n: nat) {
    n <= a.count && Boundary(a, n)
  }

  lemma InitKeepsLandmarks(x: Exts, a: Arrays, n: nat)
    requires ArraysOk(x, a) && BatchesOk(a)
    ensures BatchesOk(StepInit(x, a))
    ensures Landmark(a, n) ==> Landmark(StepInit(x, a), n)
  {
  }

  lemma StepKeepsLandmarks(x: Exts, s: State, act: Action, n: nat)
    requires RegistryInv(x, s) && Enabled(s, act) && BatchesOk(s.a)
    ensures BatchesOk(Do(x, s, act).a)
    ensures Landmark(s.a, n) ==> Landmark(Do(x, s, act).a, n)
  {
    match act
    case DoInit => InitKeepsLandmarks(x, s.a, n);
    case DoThread(t) =>
      if PcOf(s, t).Adding? { assert Do(x, s, act).a.batch == s.a.batch; }
    case _ =>
  }

  lemma CountIsLandmark(a: Arrays)
    requires BatchesOk(a) && (a.init.AddCategories? || a.count == |a.categories|)
    ensures Landmark(a, a.count)
  {
  }

  // ---------------------------------------------------------------- invariant

  /** c, or a child of c, is among the first n categories. */
  ghost predicate Covered(x: Exts, a: Arrays, c: Category, n: nat) {
    exists i :: 0 <= i < n && i < |a.categories|
      && (a.categories[i] == c || a.categories[i] in ChildrenOf(x, c))
  }

  /** The categories whose iids an event of c carries. */
  ghost function Referenced(x: Exts, c: Category): set<Category> {
    if x(c).name.Some? then {c} else ChildrenOf(x, c)
  }

  ghost predicate PacketOk(x: Exts, a: Arrays, bound: nat, packet: Packet) {
    match packet
    case Cleared(interned) => interned <= a.categories && bound <= |interned|
    case Event(c, iids) =>
      && Covered(x, a, c, bound)
      && iids.Keys == Referenced(x, c)
      && (forall i :: 0 <= i < |a.categories| && i < bound && a.categories[i] in iids ==>
            iids[a.categories[i]] == i + 1)
  }

  ghost predicate LogOk(x: Exts, a: Arrays, bound: nat, log: seq<Packet>) {
    && (forall p :: 0 <= p < |log| ==> PacketOk(x, a, bound, log[p]))
    && (log != [] ==> log[0].Cleared?)
  }

  ghost predicate StreamOk(x: Exts, s: State, id: StreamId)
    requires id in s.streams
  {
    var stream := s.streams[id];
    && id.k < |s.sessions| && id.use <= s.sessions[id.k].uses
    && (id.use == s.sessions[id.k].uses ==> !s.sessions[id.k].pc.SetupLoad? && stream.bound == s.sessions[id.k].reach)
    && Landmark(s.a, stream.bound)
    && LogOk(x, s.a, stream.bound, stream.log)
    && (!stream.needUpdate && stream.log == [] ==> PcOf(s, id.t).Interning? && PcOf(s, id.t).id == id)
  }

  ghost predicate InStream(pc: ThreadPc) {
    pc.InContext? || pc.Interning? || pc.Emitting?
  }

  ghost predicate EventPcOk(x: Exts, s: State, t: Thread, pc: ThreadPc) {
    InStream(pc) ==>
      && pc.id in s.streams && pc.id.t == t
      && Covered(x, s.a, pc.c, s.streams[pc.id].bound)
      && (pc.Emitting? ==> s.streams[pc.id].log != [])
  }

  ghost predicate StreamInv(x: Exts, s: State) {
    && ProvenanceInv(x, s)
    && BatchesOk(s.a)
    && (forall k :: 0 <= k < |s.sessions| ==> Landmark(s.a, s.sessions[k].reach))
    && (forall id :: id in s.streams ==> StreamOk(x, s, id))
    && (forall t :: EventPcOk(x, s, t, PcOf(s, t)))
  }

  // ---------------------------------------------------------------- steps

  lemma InitialStreams(x: Exts)
    ensures StreamInv(x, Initial())
  {
    InitialProvenance(x);
  }

  lemma CoveredStays(x: Exts, a: Arrays, a': Arrays, n: nat)
    requires a.categories <= a'.categories && n <= |a.categories|
    ensures forall c :: Covered(x, a, c, n) ==> Covered(x, a', c, n)
    ensures forall packet :: PacketOk(x, a, n, packet) ==> PacketOk(x, a', n, packet)
  {
    forall c | Covered(x, a, c, n) ensures Covered(x, a', c, n) {
      var i :| 0 <= i < n && i < |a.categories| && (a.categories[i] == c || a.categories[i] in ChildrenOf(x, c));
      assert a'.categories[i] == a.categories[i];
    }
  }

  lemma LogStays(x: Exts, a: Arrays, a': Arrays, bound: nat, log: seq<Packet>)
    requires a.categories <= a'.categories && bound <= |a.categories| && LogOk(x, a, bound, log)
    ensures LogOk(x, a', bound, log)
  {
    CoveredStays(x, a, a', bound);
  }

  /** A stream that a step leaves alone stays in order. */
  lemma UntouchedStream(x: Exts, s: State, act: Action, id: StreamId)
    requires WellFormed(x) && StreamInv(x, s) && Enabled(s, act)
    requires var s' := Do(x, s, act);
      && id in s.streams && id in s'.streams
      && s'.streams[id].log == s.streams[id].log && s'.streams[id].bound == s.streams[id].bound
      && (s'.streams[id].needUpdate || s'.streams[id].needUpdate == s.streams[id].needUpdate)
      && (PcOf(s', id.t) == PcOf(s, id.t) || !(PcOf(s, id.t).Interning? && PcOf(s, id.t).id == id))
    ensures StreamOk(x, Do(x, s, act), id)
  {
    var s' := Do(x, s, act);
    assert StreamOk(x, s, id);
    StepKeepsLandmarks(x, s, act, s.streams[id].bound);
    NextKeepsRegistry(x, s, act);
    LogStays(x, s.a, s'.a, s.streams[id].bound, s.streams[id].log);
    UseStays(x, s, act, id.k);
  }

  /** The count an instance's setup went up to changes only with its use. */
  lemma UseStays(x: Exts, s: State, act: Action, k: nat)
    requires Enabled(s, act) && k < |s.sessions|
    ensures var s' := Do(x, s, act);
      && |s'.sessions| == |s.sessions|
      && s.sessions[k].uses <= s'.sessions[k].uses
      && (s'.sessions[k].uses == s.sessions[k].uses && !s.sessions[k].pc.SetupLoad? ==>
            s'.sessions[k].reach == s.sessions[k].reach && !s'.sessions[k].pc.SetupLoad?)
      && (s'.sessions[k].reach == s.sessions[k].reach || s'.sessions[k].reach == s.a.count)
  {
  }

  lemma ReachStaysLandmark(x: Exts, s: State, act: Action, k: nat)
    requires StreamInv(x, s) && Enabled(s, act) && k < |s.sessions|
    ensures |Do(x, s, act).sessions| == |s.sessions| && Landmark(Do(x, s, act).a, Do(x, s, act).sessions[k].reach)
  {
    UseStays(x, s, act, k);
    CountIsLandmark(s.a);
    StepKeepsLandmarks(x, s, act, s.sessions[k].reach);
    StepKeepsLandmarks(x, s, act, s.a.count);
  }

  /** The iids read for an event of a covered category. */
  lemma EventPacketOk(x: Exts, s: State, c: Category, bound: nat)
    requires WellFormed(x) && RegistryInv(x, s) && Covered(x, s.a, c, bound)
    ensures PacketOk(x, s.a, bound, Event(c, EventIids(x, s.a, c)))
  {
    var i :| 0 <= i < bound && i < |s.a.categories|
      && (s.a.categories[i] == c || s.a.categories[i] in ChildrenOf(x, c));
    if x(c).name.Some? {
      assert s.a.categories[i] == c;
    } else {
      assert c !in s.a.iids;
    }
  }

  lemma EventPcStaysOk(x: Exts, s: State, act: Action, t: Thread)
    requires WellFormed(x) && StreamInv(x, s) && Enabled(s, act) && InStream(PcOf(s, t))
    requires var s', id := Do(x, s, act), PcOf(s, t).id;
      && PcOf(s', t) == PcOf(s, t)
      && (id in s.streams ==> id in s'.streams)
      && (id in s.streams ==> s'.streams[id].bound == s.streams[id].bound)
      && (id in s.streams ==> |s.streams[id].log| <= |s'.streams[id].log|)
    ensures EventPcOk(x, Do(x, s, act), t, PcOf(s, t))
  {
    NextKeepsRegistry(x, s, act);
    assert EventPcOk(x, s, t, PcOf(s, t));
    var id := PcOf(s, t).id;
    assert StreamOk(x, s, id);
    CoveredStays(x, s.a, Do(x, s, act).a, s.streams[id].bound);
  }

  /** A step that appends to no log, given what it does to thread t and the set of streams. */
  lemma StreamsFrame(x: Exts, s: State, act: Action, t: Thread)
    requires WellFormed(x) && StreamInv(x, s) && Enabled(s, act)
    requires var s' := Do(x, s, act);
      && (forall t' :: t' != t ==> PcOf(s', t') == PcOf(s, t'))
      && (forall id :: id in s.streams ==> id in s'.streams)
      && (forall id :: id in s'.streams ==>
            if id in s.streams && id.t != t then s'.streams[id] == s.streams[id]
            else StreamOk(x, s', id) && (id in s.streams ==> s'.streams[id].bound == s.streams[id].bound))
      && EventPcOk(x, s', t, PcOf(s', t))
    ensures StreamInv(x, Do(x, s, act))
  {
    var s' := Do(x, s, act);
    NextKeepsProvenance(x, s, act);
    NextKeepsRegistry(x, s, act);
    StepKeepsLandmarks(x, s, act, 0);
    forall k | 0 <= k < |s'.sessions| ensures Landmark(s'.a, s'.sessions[k].reach) {
      ReachStaysLandmark(x, s, act, k);
    }
    forall id | id in s'.streams ensures StreamOk(x, s', id) {
      if id in s.streams && id.t != t { UntouchedStream(x, s, act, id); }
    }
    forall t' ensures EventPcOk(x, s', t', PcOf(s', t')) {
      if t' != t && InStream(PcOf(s, t')) {
        assert EventPcOk(x, s, t', PcOf(s, t'));
        EventPcStaysOk(x, s, act, t');
      }
    }
  }

  /** Touches no stream and puts no thread into one. */
  ghost predicate Untouched(s: State, s': State, t: Thread) {
    && s'.streams == s.streams
    && (forall t' :: t' != t ==> PcOf(s', t') == PcOf(s, t'))
    && (PcOf(s', t) == PcOf(s, t) || (!InStream(PcOf(s', t)) && !InStream(PcOf(s, t))))
  }

  lemma QuietThread(x: Exts, s: State, act: Action, t: Thread)
    requires Enabled(s, act) && !InStream(PcOf(s, t))
    requires act == DoThread(t) || (act.BeginRegister? && act.t == t) || (act.BeginEvent? && act.t == t)
    ensures Untouched(s, Do(x, s, act), t)
  {
  }

  lemma QuietOther(x: Exts, s: State, act: Action)
    requires Enabled(s, act)
    requires act.BeginInit? || act.DoInit? || act.BeginSetup? || act.BeginStop? || act.DoSession?
    ensures Untouched(s, Do(x, s, act), 0)
  {
  }

  lemma QuietStep(x: Exts, s: State, act: Action, t: Thread)
    requires WellFormed(x) && StreamInv(x, s) && Enabled(s, act)
    requires Untouched(s, Do(x, s, act), t)
    ensures StreamInv(x, Do(x, s, act))
  {
    var s' := Do(x, s, act);
    forall id | id in s.streams ensures StreamOk(x, s', id) {
      UntouchedStream(x, s, act, id);
    }
    if InStream(PcOf(s', t)) {
      EventPcStaysOk(x, s, act, t);
    }
    StreamsFrame(x, s, act, t);
  }

  lemma ResetKeepsStreams(x: Exts, s: State, id: StreamId)
    requires WellFormed(x) && StreamInv(x, s) && id in s.streams
    ensures StreamInv(x, Do(x, s, ResetStream(id)))
  {
    var act := ResetStream(id);
    var s' := Do(x, s, act);
    forall id' | id' in s'.streams ensures StreamOk(x, s', id') {
      UntouchedStream(x, s, act, id');
    }
    forall t' ensures PcOf(s', t') == PcOf(s, t') {
    }
    assert EventPcOk(x, s, id.t, PcOf(s, id.t));
    StreamsFrame(x, s, act, id.t);
  }

  lemma EnterKeepsStreams(x: Exts, s: State, t: Thread, k: nat)
    requires WellFormed(x) && StreamInv(x, s) && Enabled(s, EnterContext(t, k))
    ensures StreamInv(x, Do(x, s, EnterContext(t, k)))
  {
    var act := EnterContext(t, k);
    var s' := Do(x, s, act);
    var Tracing(c, mask) := PcOf(s, t);
    var id := StreamId(t, k, s.sessions[k].uses);
    assert ThreadKnown(x, s, PcOf(s, t)) && Known(x, s, c, k);
    assert Covered(x, s.a, c, s.sessions[k].reach);
    forall id' | id' in s'.streams ensures StreamOk(x, s', id') {
      if id' in s.streams { UntouchedStream(x, s, act, id'); }
    }
    if id in s.streams { assert StreamOk(x, s, id); }
    StreamsFrame(x, s, act, t);
  }

  /** A packet in order, appended by the stream's own thread. */
  lemma AppendKeepsLog(x: Exts, a: Arrays, bound: nat, log: seq<Packet>, packet: Packet)
    requires LogOk(x, a, bound, log) && PacketOk(x, a, bound, packet) && (packet.Cleared? || log != [])
    ensures LogOk(x, a, bound, log + [packet])
  {
  }

  lemma OwnStreamStaysOk(x: Exts, s: State, t: Thread)
    requires WellFormed(x) && StreamInv(x, s) && InStream(PcOf(s, t))
    ensures var s' := StepThread(x, s, t);
      && s'.a == s.a && s'.sessions == s.sessions
      && PcOf(s, t).id in s'.streams && StreamOk(x, s', PcOf(s, t).id)
      && EventPcOk(x, s', t, PcOf(s', t))
  {
    var pc := PcOf(s, t);
    var id := pc.id;
    assert EventPcOk(x, s, t, pc) && StreamOk(x, s, id);
    match pc
    case Interning(_, _, _) =>
      AppendKeepsLog(x, s.a, s.streams[id].bound, s.streams[id].log, Cleared(s.a.categories[..s.a.count]));
    case Emitting(c, _, _) =>
      EventPacketOk(x, s, c, s.streams[id].bound);
      AppendKeepsLog(x, s.a, s.streams[id].bound, s.streams[id].log, Event(c, EventIids(x, s.a, c)));
    case _ =>
  }

  lemma OwnStreamsStayOk(x: Exts, s: State, t: Thread, id: StreamId)
    requires WellFormed(x) && StreamInv(x, s) && InStream(PcOf(s, t))
    requires id in StepThread(x, s, t).streams && id.t == t
    ensures StreamOk(x, StepThread(x, s, t), id)
  {
    assert EventPcOk(x, s, t, PcOf(s, t));
    OwnStreamStaysOk(x, s, t);
    if id != PcOf(s, t).id { UntouchedStream(x, s, DoThread(t), id); }
  }

  /** A thread changes no other thread's streams, and no stream's bound. */
  lemma EventStepShape(x: Exts, s: State, t: Thread)
    requires StreamInv(x, s) && InStream(PcOf(s, t))
    ensures var s' := StepThread(x, s, t);
      && (forall t' :: t' != t ==> PcOf(s', t') == PcOf(s, t'))
      && (forall id :: id in s.streams <==> id in s'.streams)
      && (forall id :: id in s.streams ==> s'.streams[id].bound == s.streams[id].bound)
      && (forall id :: id in s.streams && id.t != t ==> s'.streams[id] == s.streams[id])
  {
    assert EventPcOk(x, s, t, PcOf(s, t));
  }

  lemma EventStepKeepsStreams(x: Exts, s: State, t: Thread)
    requires WellFormed(x) && StreamInv(x, s) && InStream(PcOf(s, t))
    ensures StreamInv(x, Do(x, s, DoThread(t)))
  {
    var s' := StepThread(x, s, t);
    EventStepShape(x, s, t);
    OwnStreamStaysOk(x, s, t);
    forall id | id in s'.streams && id.t == t ensures StreamOk(x, s', id) {
      OwnStreamsStayOk(x, s, t, id);
    }
    StreamsFrame(x, s, DoThread(t), t);
  }

  lemma NextKeepsStreams(x: Exts, s: State, act: Action)
    requires WellFormed(x) && StreamInv(x, s) && Enabled(s, act)
    ensures StreamInv(x, Do(x, s, act))
  {
    match act
    case EnterContext(t, k) => EnterKeepsStreams(x, s, t, k);
    case ResetStream(id) => ResetKeepsStreams(x, s, id);
    case DoThread(t) =>
      if InStream(PcOf(s, t)) {
        EventStepKeepsStreams(x, s, t);
      } else {
        QuietThread(x, s, act, t);
        QuietStep(x, s, act, t);
      }
    case BeginRegister(t, _) => QuietThread(x, s, act, t); QuietStep(x, s, act, t);
    case BeginEvent(t, _) => QuietThread(x, s, act, t); QuietStep(x, s, act, t);
    case _ => QuietOther(x, s, act); QuietStep(x, s, act, 0);
  }

  lemma {:induction false} StreamsAlways(x: Exts, run: seq<State>, n: nat)
    requires WellFormed(x) && IsRun(x, run) && n < |run|
    ensures StreamInv(x, run[n])
  {
    if n == 0 {
      InitialStreams(x);
    } else {
      StreamsAlways(x, run, n - 1);
      var act := ActionAt(x, run, n - 1);
      NextKeepsStreams(x, run[n-1], act);
    }
  }

  // ---------------------------------------------------------------- what a reader of the trace sees

  /** The interning table after a log: what the last Cleared packet lists, or nothing. */
  function Table(log: seq<Packet>): seq<Category> {
    if log == [] then []
    else if log[|log|-1].Cleared? then log[|log|-1].interned
    else Table(log[..|log|-1])
  }

  /** The table resolves an iid to the category it was written for. */
  predicate Resolves(table: seq<Category>, iid: nat, d: Category) {
    1 <= iid <= |table| && table[iid-1] == d
  }

  /** One init call has stored all these categories. */
  ghost predicate OneBatch(a: Arrays, ds: set<Category>) {
    && (forall d :: d in ds ==> d in a.categories)
    && (forall i, j :: 0 <= i < |a.categories| && 0 <= j < |a.categories| && i < |a.batch| && j < |a.batch| ==>
          a.categories[i] in ds && a.categories[j] in ds ==> a.batch[i] == a.batch[j])
  }

  /** c is a named category, or a group whose children were all stored by one init call. */
  ghost predicate RegisteredTogether(x: Exts, a: Arrays, c: Category) {
    x(c).name.Some? || OneBatch(a, ChildrenOf(x, c))
  }

  lemma {:induction false} TableReaches(x: Exts, a: Arrays, bound: nat, log: seq<Packet>)
    requires LogOk(x, a, bound, log) && log != []
    ensures bound <= |Table(log)| && Table(log) <= a.categories
  {
    var last := |log| - 1;
    assert PacketOk(x, a, bound, log[last]);
    if !log[last].Cleared? {
      assert log[0].Cleared?;
      assert log[..last][0] == log[0];
      TableReaches(x, a, bound, log[..last]);
    }
  }

  /** All children of a group registered together are below a landmark that covers one. */
  lemma CoversAll(x: Exts, a: Arrays, c: Category, bound: nat, d: Category) returns (i: nat)
    requires |a.batch| == |a.categories| && Landmark(a, bound) && a.count <= |a.categories|
    requires Covered(x, a, c, bound) && OneBatch(a, ChildrenOf(x, c))
    requires c !in a.categories && d in ChildrenOf(x, c)
    ensures i < bound && i < |a.categories| && a.categories[i] == d
  {
    var j :| 0 <= j < bound && j < |a.categories| && (a.categories[j] == c || a.categories[j] in ChildrenOf(x, c));
    i :| 0 <= i < |a.categories| && a.categories[i] == d;
    assert a.batch[i] == a.batch[j];
  }

  /** What an event of c refers to lies below the bound. */
  lemma ReferencedBelow(x: Exts, a: Arrays, c: Category, bound: nat, d: Category) returns (i: nat)
    requires WellFormed(x) && ArraysOk(x, a) && Landmark(a, bound) && Covered(x, a, c, bound)
    requires RegisteredTogether(x, a, c) && d in Referenced(x, c)
    ensures i < bound && i < |a.categories| && a.categories[i] == d
  {
    if x(c).name.Some? {
      i :| 0 <= i < bound && i < |a.categories| && (a.categories[i] == c || a.categories[i] in ChildrenOf(x, c));
      assert ChildrenOf(x, c) == {};
    } else {
      i := CoversAll(x, a, c, bound, d);
    }
  }

  /** The event at the end of a log that is in order. */
  lemma EventResolves(x: Exts, a: Arrays, bound: nat, log: seq<Packet>, event: Packet, d: Category)
    requires WellFormed(x) && ArraysOk(x, a) && Landmark(a, bound)
    requires log != [] && LogOk(x, a, bound, log) && PacketOk(x, a, bound, event)
    requires event.Event? && d in event.iids && RegisteredTogether(x, a, event.c)
    ensures Resolves(Table(log), event.iids[d], d)
  {
    TableReaches(x, a, bound, log);
    var i := ReferencedBelow(x, a, event.c, bound, d);
  }

  /** Interning safety. In every reachable state, every iid in every event packet of every
      packet sequence resolves, through the table of the last Cleared packet before the event,
      to the category it was written for. Init calls, session setups and stops, reuse of an
      instance index, stale masks and resets of the incremental state interleave freely. */
  lemma EventsResolve(x: Exts, run: seq<State>, n: nat, id: StreamId, p: nat, d: Category)
    requires WellFormed(x) && IsRun(x, run) && n < |run|
    requires id in run[n].streams && p < |run[n].streams[id].log| && run[n].streams[id].log[p].Event?
    requires RegisteredTogether(x, run[n].a, run[n].streams[id].log[p].c)
    requires d in run[n].streams[id].log[p].iids
    ensures Resolves(Table(run[n].streams[id].log[..p]), run[n].streams[id].log[p].iids[d], d)
  {
    StreamsAlways(x, run, n);
    assert StreamOk(x, run[n], id);
    var stream := run[n].streams[id];
    assert PacketOk(x, run[n].a, stream.bound, stream.log[p]);
    assert stream.log[..p] != [] && LogOk(x, run[n].a, stream.bound, stream.log[..p]);
    EventResolves(x, run[n].a, stream.bound, stream.log[..p], stream.log[p], d);
  }

  lemma ListedResolves(x: Exts, a: Arrays, table: seq<Category>, d: Category)
    requires CategoriesNamed(x, a) && table <= a.categories
    ensures Resolves(table, IidOf(a, d), d) <==> d in table
  {
    if i :| 0 <= i < |table| && table[i] == d {
      assert a.categories[i] == d;
    }
  }

  /** The iid a thread is about to write for d resolves exactly when the last Cleared packet of
      the sequence lists d. For a group, a child that no init call stored, or that one stored
      after that packet, is referenced without having been interned. */
  lemma EmittedIidResolvesExactlyWhenListed(x: Exts, run: seq<State>, n: nat, t: Thread, d: Category)
    requires WellFormed(x) && IsRun(x, run) && n < |run| && PcOf(run[n], t).Emitting?
    requires d in EventIids(x, run[n].a, PcOf(run[n], t).c)
    ensures PcOf(run[n], t).id in run[n].streams
    ensures var table := Table(run[n].streams[PcOf(run[n], t).id].log);
            Resolves(table, EventIids(x, run[n].a, PcOf(run[n], t).c)[d], d) <==> d in table
  {
    StreamsAlways(x, run, n);
    var s := run[n];
    var pc := PcOf(s, t);
    assert EventPcOk(x, s, t, pc) && StreamOk(x, s, pc.id);
    var stream := s.streams[pc.id];
    TableReaches(x, s.a, stream.bound, stream.log);
    ListedResolves(x, s.a, Table(stream.log), d);
  }

  // ---------------------------------------------------------------- whole events, exactly

  /** The state in which a stream's thread appends a packet. */
  ghost predicate Appends(x: Exts, s: State, id: StreamId, packet: Packet) {
    && InStream(PcOf(s, id.t)) && PcOf(s, id.t).id == id
    && match packet
       case Cleared(interned) =>
         PcOf(s, id.t).Interning? && s.a.count <= |s.a.categories| && interned == s.a.categories[..s.a.count]
       case Event(c, iids) =>
         PcOf(s, id.t).Emitting? && c == PcOf(s, id.t).c && iids == EventIids(x, s.a, c)
  }

  ghost function LogOf(s: State, id: StreamId): seq<Packet> {
    if id in s.streams then s.streams[id].log else []
  }

  /** A step leaves a log alone or appends a packet to it. */
  ghost predicate Extends(x: Exts, s: State, s': State, id: StreamId) {
    || LogOf(s', id) == LogOf(s, id)
    || (id in s.streams && exists packet :: LogOf(s', id) == LogOf(s, id) + [packet] && Appends(x, s, id, packet))
  }

  lemma ThreadExtends(x: Exts, s: State, t: Thread, id: StreamId)
    requires |s.a.categories| >= s.a.count && EventPcOk(x, s, t, PcOf(s, t)) && InStream(PcOf(s, t))
    ensures Extends(x, s, StepThread(x, s, t), id)
  {
    var s', pc := StepThread(x, s, t), PcOf(s, t);
    if id == pc.id {
      match pc
      case Interning(_, _, _) =>
        assert LogOf(s', id) == LogOf(s, id) + [Cleared(s.a.categories[..s.a.count])];
        assert Appends(x, s, id, Cleared(s.a.categories[..s.a.count]));
      case Emitting(c, _, _) =>
        assert LogOf(s', id) == LogOf(s, id) + [Event(c, EventIids(x, s.a, c))];
        assert Appends(x, s, id, Event(c, EventIids(x, s.a, c)));
      case _ =>
    }
  }

  lemma LogStep(x: Exts, s: State, act: Action, id: StreamId)
    requires StreamInv(x, s) && Enabled(s, act)
    ensures Extends(x, s, Do(x, s, act), id)
  {
    match act
    case DoThread(t) =>
      if InStream(PcOf(s, t)) {
        assert EventPcOk(x, s, t, PcOf(s, t));
        ThreadExtends(x, s, t, id);
      } else {
        QuietThread(x, s, act, t);
      }
    case BeginRegister(t, _) => QuietThread(x, s, act, t);
    case BeginEvent(t, _) => QuietThread(x, s, act, t);
    case EnterContext(_, _) =>
    case ResetStream(_) =>
    case _ => QuietOther(x, s, act);
  }

  lemma RunExtends(x: Exts, run: seq<State>, n: nat, id: StreamId)
    requires WellFormed(x) && IsRun(x, run) && n + 1 < |run|
    ensures Extends(x, run[n], run[n+1], id)
  {
    StreamsAlways(x, run, n);
    var act := ActionAt(x, run, n);
    LogStep(x, run[n], act, id);
  }

  /** When the packet at position p of a log was appended. */
  lemma {:induction false} AppendedAt(x: Exts, run: seq<State>, n: nat, id: StreamId, p: nat) returns (m: nat)
    requires WellFormed(x) && IsRun(x, run) && n < |run| && p < |LogOf(run[n], id)|
    ensures m < n && id in run[m].streams && LogOf(run[m], id) == LogOf(run[n], id)[..p]
    ensures Appends(x, run[m], id, LogOf(run[n], id)[p])
    decreases n
  {
    assert n > 0;
    RunExtends(x, run, n - 1, id);
    var log, log' := LogOf(run[n-1], id), LogOf(run[n], id);
    if p < |log| {
      m := AppendedAt(x, run, n - 1, id, p);
      assert log[p] == log'[p] && log[..p] == log'[..p];
    } else {
      m := n - 1;
      var packet :| log' == log + [packet] && Appends(x, run[m], id, packet);
      assert log'[..p] == log && log'[p] == packet;
    }
  }

  lemma {:induction false} LastCleared(log: seq<Packet>) returns (r: nat)
    requires log != [] && log[0].Cleared?
    ensures r < |log| && log[r].Cleared? && log[r].interned == Table(log)
    ensures forall q :: r < q < |log| ==> log[q].Event?
  {
    var last := |log| - 1;
    if log[last].Cleared? {
      r := last;
    } else {
      assert log[..last][0] == log[0];
      r := LastCleared(log[..last]);
      forall q | r < q < |log| ensures log[q].Event? {
        if q < last { assert log[..last][q] == log[q]; }
      }
    }
  }

  /** The categories published in a state. */
  ghost function PublishedCategories(a: Arrays): seq<Category> {
    if a.count <= |a.categories| then a.categories[..a.count] else a.categories
  }

  /** An event follows a Cleared packet and carries the iids of what it refers to. */
  lemma EventShape(x: Exts, run: seq<State>, n: nat, id: StreamId, p: nat)
    requires WellFormed(x) && IsRun(x, run) && n < |run|
    requires p < |LogOf(run[n], id)| && LogOf(run[n], id)[p].Event?
    ensures p > 0 && LogOf(run[n], id)[0].Cleared?
    ensures LogOf(run[n], id)[p].iids.Keys == Referenced(x, LogOf(run[n], id)[p].c)
  {
    StreamsAlways(x, run, n);
    assert StreamOk(x, run[n], id);
    assert PacketOk(x, run[n].a, run[n].streams[id].bound, LogOf(run[n], id)[p]);
  }

  /** The exact condition for an event to resolve: everything it refers to (its own category if
      that is named, else the group's children) had been published by init calls when the last
      Cleared packet before it was written, in state m. */
  lemma EventResolvesExactlyWhenPublished(x: Exts, run: seq<State>, n: nat, id: StreamId, p: nat)
      returns (m: nat, r: nat)
    requires WellFormed(x) && IsRun(x, run) && n < |run|
    requires p < |LogOf(run[n], id)| && LogOf(run[n], id)[p].Event?
    ensures r < p && LogOf(run[n], id)[r].Cleared? && forall q :: r < q < p ==> LogOf(run[n], id)[q].Event?
    ensures m < n && LogOf(run[m], id) == LogOf(run[n], id)[..r] && PcOf(run[m], id.t).Interning?
    ensures var log := LogOf(run[n], id);
      (forall d :: d in log[p].iids ==> Resolves(Table(log[..p]), log[p].iids[d], d)) <==>
      (forall d :: d in Referenced(x, log[p].c) ==> d in PublishedCategories(run[m].a))
  {
    var log := LogOf(run[n], id);
    EventShape(x, run, n, id, p);
    r := LastCleared(log[..p]);
    assert log[..p][..r] == log[..r];
    m := AppendedAt(x, run, n, id, r);
    var e := AppendedAt(x, run, n, id, p);
    forall d | d in log[p].iids
      ensures Resolves(Table(log[..p]), log[p].iids[d], d) <==> d in PublishedCategories(run[m].a)
    {
      EmittedIidResolvesExactlyWhenListed(x, run, e, id.t, d);
    }
  }
}
