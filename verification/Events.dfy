/** What tracing an event writes, and to whom: exactly one event packet for every session that is
    in the category's mask and stays in use, after one Cleared packet where that is due. */
module Events {
  import opened Common
  import opened Machine
  import opened Registry
  import opened Provenance
  import opened Streams

  // ---------------------------------------------------------------- one step of a thread in a stream

  /** The stream a thread is in has the same log, and still needs an update if it did. */
  ghost predicate KeepsStream(s: State, s': State, t: Thread)
    requires InStream(PcOf(s, t))
  {
    && PcOf(s', t) == PcOf(s, t)
    && LogOf(s', PcOf(s, t).id) == LogOf(s, PcOf(s, t).id)
    && (NeedsUpdate(s.streams, PcOf(s, t).id) ==> NeedsUpdate(s'.streams, PcOf(s, t).id))
  }

  lemma OtherThreadKeepsStream(x: Exts, s: State, t: Thread, t': Thread)
    requires t' != t && InStream(PcOf(s, t)) && InStream(PcOf(s, t'))
    requires EventPcOk(x, s, t, PcOf(s, t)) && EventPcOk(x, s, t', PcOf(s, t'))
    ensures KeepsStream(s, StepThread(x, s, t'), t)
  {
  }

  /** Only its own thread changes a stream's log or makes it need no update. */
  lemma OthersKeepStream(x: Exts, s: State, act: Action, t: Thread)
    requires StreamInv(x, s) && Enabled(s, act) && InStream(PcOf(s, t)) && act != DoThread(t)
    ensures KeepsStream(s, Do(x, s, act), t)
  {
    assert EventPcOk(x, s, t, PcOf(s, t));
    match act
    case DoThread(t') =>
      if InStream(PcOf(s, t')) {
        assert EventPcOk(x, s, t', PcOf(s, t'));
        OtherThreadKeepsStream(x, s, t, t');
      } else {
        QuietThread(x, s, act, t');
      }
    case BeginRegister(t', _) => QuietThread(x, s, act, t');
    case BeginEvent(t', _) => QuietThread(x, s, act, t');
    case EnterContext(_, _) =>
    case ResetStream(_) =>
    case _ => QuietOther(x, s, act);
  }

  lemma OthersKeepStreamAt(x: Exts, run: seq<State>, n: nat, t: Thread)
    requires WellFormed(x) && IsRun(x, run) && n + 1 < |run| && InStream(PcOf(run[n], t))
    requires run[n+1] != StepThread(x, run[n], t)
    ensures KeepsStream(run[n], run[n+1], t)
  {
    StreamsAlways(x, run, n);
    var act := ActionAt(x, run, n);
    OthersKeepStream(x, run[n], act, t);
  }

  /** The thread's own step. */
  lemma OwnStep(x: Exts, s: State, t: Thread)
    requires StreamInv(x, s) && InStream(PcOf(s, t))
    ensures var s', pc := StepThread(x, s, t), PcOf(s, t);
      var log, log', pc' := LogOf(s, pc.id), LogOf(s', pc.id), PcOf(s', t);
      match pc
      case InContext(c, mask, id) =>
        log' == log && pc' == if NeedsUpdate(s.streams, id) then Interning(c, mask, id) else Emitting(c, mask, id)
      case Interning(c, mask, id) =>
        log' == log + [Cleared(PublishedCategories(s.a))] && pc' == Emitting(c, mask, id)
      case Emitting(c, mask, id) =>
        log' == log + [Event(c, EventIids(x, s.a, c))] && pc' == Tracing(c, mask)
      case _ => true
  {
    assert EventPcOk(x, s, t, PcOf(s, t));
  }

  // ---------------------------------------------------------------- one stay in a stream

  /** Thread t is in one stream from state a on and back in the loop over instances at state q. */
  ghost predicate Stay(run: seq<State>, t: Thread, a: nat, q: nat) {
    && a < q < |run| && InStream(PcOf(run[a], t)) && PcOf(run[q], t).Tracing?
    && forall r: nat :: a <= r < q ==> !PcOf(run[r], t).Tracing?
  }

  lemma {:induction false} WritesEvent(x: Exts, run: seq<State>, t: Thread, a: nat, q: nat) returns (e: nat)
    requires WellFormed(x) && IsRun(x, run) && Stay(run, t, a, q) && PcOf(run[a], t).Emitting?
    ensures a <= e < q == e + 1 && PcOf(run[e], t) == PcOf(run[a], t)
    ensures var Emitting(c, mask, id) := PcOf(run[a], t);
      && LogOf(run[q], id) == LogOf(run[a], id) + [Event(c, EventIids(x, run[e].a, c))]
      && PcOf(run[q], t) == Tracing(c, mask)
    decreases q - a
  {
    if run[a+1] == StepThread(x, run[a], t) {
      StreamsAlways(x, run, a);
      OwnStep(x, run[a], t);
      e := a;
    } else {
      OthersKeepStreamAt(x, run, a, t);
      e := WritesEvent(x, run, t, a + 1, q);
    }
  }

  lemma {:induction false} InternsAndWrites(x: Exts, run: seq<State>, t: Thread, a: nat, q: nat)
      returns (m: nat, e: nat)
    requires WellFormed(x) && IsRun(x, run) && Stay(run, t, a, q) && PcOf(run[a], t).Interning?
    ensures a <= m < e < q == e + 1 && PcOf(run[m], t) == PcOf(run[a], t)
    ensures var Interning(c, mask, id) := PcOf(run[a], t);
      && LogOf(run[q], id) ==
           LogOf(run[a], id) + [Cleared(PublishedCategories(run[m].a)), Event(c, EventIids(x, run[e].a, c))]
      && PcOf(run[e], t) == Emitting(c, mask, id) && PcOf(run[q], t) == Tracing(c, mask)
    decreases q - a
  {
    if run[a+1] == StepThread(x, run[a], t) {
      StreamsAlways(x, run, a);
      OwnStep(x, run[a], t);
      m := a;
      e := WritesEvent(x, run, t, a + 1, q);
    } else {
      OthersKeepStreamAt(x, run, a, t);
      m, e := InternsAndWrites(x, run, t, a + 1, q);
    }
  }

  /** What a stay that began at state a has written at state q: d is the state in which the thread
      tested need_update, m the one in which it interned if it had to, and e the one in which it
      wrote the event. */
  ghost predicate Written(x: Exts, run: seq<State>, t: Thread, a: nat, q: nat, d: nat, m: nat, e: nat)
    requires a < q < |run| && PcOf(run[a], t).InContext?
  {
    var InContext(c, mask, id) := PcOf(run[a], t);
    && a <= d < e < q == e + 1
    && PcOf(run[d], t) == PcOf(run[a], t) && !PcOf(run[d+1], t).InContext?
    && (NeedsUpdate(run[a].streams, id) ==> NeedsUpdate(run[d].streams, id))
    && (NeedsUpdate(run[d].streams, id) ==> d < m < e && PcOf(run[m], t) == Interning(c, mask, id))
    && PcOf(run[e], t) == Emitting(c, mask, id) && PcOf(run[q], t) == Tracing(c, mask)
    && LogOf(run[q], id) ==
         LogOf(run[a], id)
         + (if NeedsUpdate(run[d].streams, id) then [Cleared(PublishedCategories(run[m].a))] else [])
         + [Event(c, EventIids(x, run[e].a, c))]
  }

  lemma TestsNow(x: Exts, run: seq<State>, t: Thread, a: nat, q: nat) returns (m: nat, e: nat)
    requires WellFormed(x) && IsRun(x, run) && Stay(run, t, a, q) && PcOf(run[a], t).InContext?
    requires StreamInv(x, run[a]) && run[a+1] == StepThread(x, run[a], t)
    ensures Written(x, run, t, a, q, a, m, e)
  {
    OwnStep(x, run[a], t);
    var log := LogOf(run[a], PcOf(run[a], t).id);
    assert log + [] == log;
    if NeedsUpdate(run[a].streams, PcOf(run[a], t).id) {
      m, e := InternsAndWrites(x, run, t, a + 1, q);
    } else {
      e := WritesEvent(x, run, t, a + 1, q);
      m := e;
    }
  }

  lemma {:induction false} TestsAndWrites(x: Exts, run: seq<State>, t: Thread, a: nat, q: nat)
      returns (d: nat, m: nat, e: nat)
    requires WellFormed(x) && IsRun(x, run) && Stay(run, t, a, q) && PcOf(run[a], t).InContext?
    ensures Written(x, run, t, a, q, d, m, e)
    decreases q - a
  {
    if run[a+1] == StepThread(x, run[a], t) {
      StreamsAlways(x, run, a);
      d := a;
      m, e := TestsNow(x, run, t, a, q);
    } else {
      OthersKeepStreamAt(x, run, a, t);
      d, m, e := TestsAndWrites(x, run, t, a + 1, q);
    }
  }

  /** The iids of an event of c are array positions: one more than the index of each category it
      refers to, zero for one that is not in the array. */
  ghost predicate IidsArePositions(x: Exts, a: Arrays, c: Category, iids: map<Category, nat>) {
    && iids.Keys == Referenced(x, c)
    && (forall d, i :: d in iids && 0 <= i < |a.categories| && a.categories[i] == d ==> iids[d] == i + 1)
    && (forall d :: d in iids && d !in a.categories ==> iids[d] == 0)
  }

  lemma EventIidsArePositions(x: Exts, a: Arrays, c: Category)
    requires WellFormed(x) && CategoriesNamed(x, a) && (x(c).name.Some? ==> c in a.categories)
    ensures IidsArePositions(x, a, c, EventIids(x, a, c))
  {
    if x(c).name.Some? {
      var i :| 0 <= i < |a.categories| && a.categories[i] == c;
    } else {
      assert c !in a.iids;
    }
  }

  /** A thread writes for named categories only once they are registered. */
  lemma NamedIsRegistered(x: Exts, s: State, t: Thread)
    requires WellFormed(x) && StreamInv(x, s) && InStream(PcOf(s, t)) && x(PcOf(s, t).c).name.Some?
    ensures PcOf(s, t).c in s.a.categories
  {
    assert EventPcOk(x, s, t, PcOf(s, t));
    assert ChildrenOf(x, PcOf(s, t).c) == {};
  }

  /** The iids that a thread would write in some state of a run. */
  lemma IidsWritten(x: Exts, run: seq<State>, t: Thread, e: nat)
    requires WellFormed(x) && IsRun(x, run) && e < |run| && InStream(PcOf(run[e], t))
    ensures var a, c := run[e].a, PcOf(run[e], t).c;
      var iids := EventIids(x, a, c);
      && IidsArePositions(x, a, c, iids)
      && (x(c).name.Some? ==> iids.Keys == {c} && 0 < iids[c] <= |a.categories| && a.categories[iids[c]-1] == c)
  {
    var c := PcOf(run[e], t).c;
    RegistryAlways(x, run, e);
    StreamsAlways(x, run, e);
    if x(c).name.Some? {
      NamedIsRegistered(x, run[e], t);
      var i :| 0 <= i < |run[e].a.categories| && run[e].a.categories[i] == c;
    }
    EventIidsArePositions(x, run[e].a, c);
  }

  /** What one stay in a stream writes, whatever others do meanwhile and whatever the log holds
      already: if the stream needs an update when the thread tests for it, one Cleared packet
      with the categories published by then; and then exactly one event of c, with the iids of
      all that c refers to, which for a named category is c itself. */
  lemma EventIsWritten(x: Exts, run: seq<State>, t: Thread, a: nat, q: nat)
      returns (d: nat, m: nat, e: nat, iids: map<Category, nat>)
    requires WellFormed(x) && IsRun(x, run) && Stay(run, t, a, q) && PcOf(run[a], t).InContext?
    ensures a <= d < e < q && PcOf(run[d], t) == PcOf(run[a], t) && !PcOf(run[d+1], t).InContext?
    ensures var InContext(c, mask, id) := PcOf(run[a], t);
      var need := id in run[d].streams && run[d].streams[id].needUpdate;
      && (id in run[a].streams && run[a].streams[id].needUpdate ==> need)
      && (need ==> d < m < e && run[m].a.count <= |run[m].a.categories|)
      && LogOf(run[q], id) ==
           LogOf(run[a], id) + (if need then [Cleared(run[m].a.categories[..run[m].a.count])] else [])
           + [Event(c, iids)]
      && PcOf(run[q], t) == Tracing(c, mask)
      && IidsArePositions(x, run[e].a, c, iids)
      && (x(c).name.Some? ==>
            iids.Keys == {c} && 0 < iids[c] <= |run[e].a.categories| && run[e].a.categories[iids[c]-1] == c)
  {
    d, m, e := TestsAndWrites(x, run, t, a, q);
    iids := EventIids(x, run[e].a, PcOf(run[a], t).c);
    IidsWritten(x, run, t, e);
    if NeedsUpdate(run[d].streams, PcOf(run[a], t).id) {
      RegistryAlways(x, run, m);
    }
  }

  // ---------------------------------------------------------------- after a reset

  ghost predicate Tests(pc: ThreadPc, id: StreamId) {
    pc.InContext? && pc.id == id
  }

  lemma EventStepKeepsNeed(x: Exts, s: State, t: Thread, id: StreamId)
    requires StreamInv(x, s) && InStream(PcOf(s, t)) && NeedsUpdate(s.streams, id) && !Tests(PcOf(s, id.t), id)
    ensures NeedsUpdate(StepThread(x, s, t).streams, id)
  {
    assert EventPcOk(x, s, t, PcOf(s, t));
  }

  /** Only the test of need_update by a stream's own thread clears it. */
  lemma OthersKeepNeed(x: Exts, s: State, act: Action, id: StreamId)
    requires StreamInv(x, s) && Enabled(s, act) && NeedsUpdate(s.streams, id) && !Tests(PcOf(s, id.t), id)
    ensures NeedsUpdate(Do(x, s, act).streams, id)
  {
    if act.DoThread? && InStream(PcOf(s, act.t)) {
      EventStepKeepsNeed(x, s, act.t, id);
    }
  }

  lemma NeedNext(x: Exts, run: seq<State>, n: nat, id: StreamId)
    requires WellFormed(x) && IsRun(x, run) && n + 1 < |run|
    requires NeedsUpdate(run[n].streams, id) && !Tests(PcOf(run[n], id.t), id)
    ensures NeedsUpdate(run[n+1].streams, id)
  {
    StreamsAlways(x, run, n);
    var act := ActionAt(x, run, n);
    OthersKeepNeed(x, run[n], act, id);
  }

  lemma {:induction false} NeedStays(x: Exts, run: seq<State>, n: nat, a: nat, id: StreamId)
    requires WellFormed(x) && IsRun(x, run) && n <= a < |run| && NeedsUpdate(run[n].streams, id)
    requires forall r: nat :: n <= r < a ==> !Tests(PcOf(run[r], id.t), id)
    ensures NeedsUpdate(run[a].streams, id)
    decreases a
  {
    if n < a {
      NeedStays(x, run, n, a - 1, id);
      NeedNext(x, run, a - 1, id);
    }
  }

  /** When a session has its incremental state cleared, the next event that a thread writes into
      its sequence there comes with all published categories before it. */
  lemma ResetIsAnswered(x: Exts, run: seq<State>, n: nat, a: nat, q: nat, id: StreamId)
      returns (m: nat, iids: map<Category, nat>)
    requires WellFormed(x) && IsRun(x, run) && n < a
    requires Stay(run, id.t, a, q) && Tests(PcOf(run[a], id.t), id)
    requires Enabled(run[n], ResetStream(id)) && run[n+1] == Do(x, run[n], ResetStream(id))
    requires forall r: nat :: n < r < a ==> !Tests(PcOf(run[r], id.t), id)
    ensures a < m < q && run[m].a.count <= |run[m].a.categories|
    ensures LogOf(run[q], id) ==
      LogOf(run[a], id) + [Cleared(run[m].a.categories[..run[m].a.count]), Event(PcOf(run[a], id.t).c, iids)]
  {
    NeedStays(x, run, n + 1, a, id);
    var d, e;
    d, m, e, iids := EventIsWritten(x, run, id.t, a, q);
  }

  // ---------------------------------------------------------------- one event, all sessions

  /** Thread t begins an event of c at state p, with the mask that c has then, and is not through
      with it before state q. */
  ghost predicate Traces(x: Exts, run: seq<State>, t: Thread, c: Category, p: nat, q: nat) {
    && p + 1 <= q < |run|
    && Enabled(run[p], BeginEvent(t, c)) && run[p+1] == Do(x, run[p], BeginEvent(t, c))
    && forall r: nat :: p < r < q ==> !PcOf(run[r], t).Free?
  }

  /** The step from state r takes thread t into session k. */
  ghost predicate EntersAt(run: seq<State>, t: Thread, k: nat, r: nat) {
    && r + 1 < |run| && PcOf(run[r], t).Tracing?
    && PcOf(run[r+1], t).InContext? && PcOf(run[r+1], t).id.k == k
  }

  ghost predicate InEvent(pc: ThreadPc) {
    pc.Tracing? || InStream(pc)
  }

  ghost predicate Entered(run: seq<State>, t: Thread, k: nat, p: nat, r: nat) {
    exists b: nat :: p < b < r && EntersAt(run, t, k, b)
  }

  /** Entering a session leaves its sequence as it is; a sequence that is new needs an update. */
  lemma EnterStep(x: Exts, s: State, act: Action, t: Thread)
    requires Enabled(s, act) && PcOf(s, t).Tracing? && PcOf(Do(x, s, act), t).InContext?
    ensures var s', id := Do(x, s, act), PcOf(Do(x, s, act), t).id;
      LogOf(s', id) == LogOf(s, id) && (id !in s.streams ==> NeedsUpdate(s'.streams, id))
  {
  }

  /** One step of a thread that is tracing an event of c. */
  lemma EventStep(x: Exts, s: State, act: Action, t: Thread)
    requires Enabled(s, act) && InEvent(PcOf(s, t))
    ensures var pc, pc' := PcOf(s, t), PcOf(Do(x, s, act), t);
      if pc.Tracing? && pc'.InContext? then
        && pc'.id.k in pc.mask && pc'.c == pc.c && pc'.mask == pc.mask - {pc'.id.k}
        && pc'.id.k < |s.sessions| && pc'.id == StreamId(t, pc'.id.k, s.sessions[pc'.id.k].uses)
      else
        || (pc'.Free? && pc.Tracing?
            && forall k :: k in pc.mask && k < |s.sessions| ==> !Live(s.sessions[k].pc))
        || (InEvent(pc') && pc'.c == pc.c && pc'.mask == pc.mask)
  {
  }

  /** The mask that is left holds the sessions not entered yet, and none is entered twice. */
  lemma {:induction false} MaskLeft(x: Exts, run: seq<State>, t: Thread, c: Category, p: nat, r: nat, k: nat)
    requires IsRun(x, run) && Traces(x, run, t, c, p, r) && !PcOf(run[r], t).Free?
    ensures InEvent(PcOf(run[r], t)) && PcOf(run[r], t).c == c
    ensures k in PcOf(run[r], t).mask <==> k in MaskOf(run[p].masks, c) && !Entered(run, t, k, p, r)
    ensures Entered(run, t, k, p, r) ==> k in MaskOf(run[p].masks, c)
    ensures forall b: nat, b': nat :: p < b < r && p < b' < r && EntersAt(run, t, k, b) && EntersAt(run, t, k, b') ==>
      b == b'
    decreases r
  {
    if p + 1 < r {
      MaskLeft(x, run, t, c, p, r - 1, k);
      var act := ActionAt(x, run, r - 1);
      EventStep(x, run[r-1], act, t);
      EnteredStep(run, t, k, p, r);
    }
  }

  lemma EnteredStep(run: seq<State>, t: Thread, k: nat, p: nat, r: nat)
    requires p < r - 1 && r < |run|
    ensures Entered(run, t, k, p, r) <==> Entered(run, t, k, p, r - 1) || EntersAt(run, t, k, r - 1)
  {
    if EntersAt(run, t, k, r - 1) {
      var b: nat := r - 1;
      assert EntersAt(run, t, k, b);
    }
  }

  /** The last step of an event finds no session in use in what is left of the mask. */
  lemma EventEnds(x: Exts, run: seq<State>, t: Thread, n: nat)
    requires IsRun(x, run) && n + 1 < |run| && InEvent(PcOf(run[n], t)) && PcOf(run[n+1], t).Free?
    ensures PcOf(run[n], t).Tracing?
    ensures forall k :: k in PcOf(run[n], t).mask && k < |run[n].sessions| ==> !Live(run[n].sessions[k].pc)
  {
    var act := ActionAt(x, run, n);
    EventStep(x, run[n], act, t);
  }

  ghost predicate InUse(run: seq<State>, k: nat, p: nat, q: nat)
    requires q < |run|
  {
    forall r: nat :: p < r < q ==>
      k < |run[r].sessions| && !run[r].sessions[k].pc.Idle? && !run[r].sessions[k].pc.SetupLoad?
  }

  /** An event reaches every session that is in the category's mask when it begins and stays in
      use until it is over, exactly once, and no session outside the mask. */
  lemma EventReachesSessions(x: Exts, run: seq<State>, t: Thread, c: Category, p: nat, q: nat, k: nat)
    requires IsRun(x, run) && Traces(x, run, t, c, p, q) && PcOf(run[q], t).Free?
    ensures Entered(run, t, k, p, q) ==> k in MaskOf(run[p].masks, c)
    ensures k in MaskOf(run[p].masks, c) && InUse(run, k, p, q) ==> Entered(run, t, k, p, q)
    ensures forall b: nat, b': nat :: p < b < q && p < b' < q && EntersAt(run, t, k, b) && EntersAt(run, t, k, b') ==>
      b == b'
  {
    assert p + 1 < q;
    var last: nat := q - 1;
    MaskLeft(x, run, t, c, p, last, k);
    EventEnds(x, run, t, last);
    EnteredStep(run, t, k, p, q);
  }

  /** What entering means: the thread is in the session's current sequence, tracing c. */
  lemma EnteringIsContext(x: Exts, run: seq<State>, t: Thread, c: Category, p: nat, q: nat, k: nat, b: nat)
    requires IsRun(x, run) && Traces(x, run, t, c, p, q) && p < b < q && EntersAt(run, t, k, b)
    ensures k < |run[b].sessions| && PcOf(run[b+1], t).c == c
    ensures PcOf(run[b+1], t).id == StreamId(t, k, run[b].sessions[k].uses)
    ensures var id := PcOf(run[b+1], t).id;
      LogOf(run[b+1], id) == LogOf(run[b], id) && (id !in run[b].streams ==> NeedsUpdate(run[b+1].streams, id))
  {
    MaskLeft(x, run, t, c, p, b, k);
    var act := ActionAt(x, run, b);
    EventStep(x, run[b], act, t);
    EnterStep(x, run[b], act, t);
  }

  /** A thread that has entered a stream leaves it before its event is over. */
  lemma {:induction false} LeavesStream(x: Exts, run: seq<State>, t: Thread, a: nat, q: nat) returns (z: nat)
    requires IsRun(x, run) && a < q < |run| && InStream(PcOf(run[a], t)) && PcOf(run[q], t).Free?
    ensures z < q && Stay(run, t, a, z)
    decreases q - a
  {
    var act := ActionAt(x, run, a);
    EventStep(x, run[a], act, t);
    if PcOf(run[a+1], t).Tracing? {
      z := a + 1;
    } else {
      z := LeavesStream(x, run, t, a + 1, q);
    }
  }

  /** All of it together: a complete call of TraceTrackEvent writes, into the current sequence of
      every session that is in the category's mask and stays in use, an event of the category.
      b is the state in which it enters the session, z the one in which it leaves it again. */
  lemma EventIsDelivered(x: Exts, run: seq<State>, t: Thread, c: Category, p: nat, q: nat, k: nat)
      returns (b: nat, z: nat, d: nat, m: nat, e: nat, iids: map<Category, nat>)
    requires WellFormed(x) && IsRun(x, run) && Traces(x, run, t, c, p, q) && PcOf(run[q], t).Free?
    requires k in MaskOf(run[p].masks, c) && InUse(run, k, p, q)
    ensures p < b < d < e < z < q && k < |run[b].sessions|
    ensures var id := StreamId(t, k, run[b].sessions[k].uses);
      var need := id in run[d].streams && run[d].streams[id].needUpdate;
      && (id !in run[b].streams ==> need)
      && (need ==> d < m < e && run[m].a.count <= |run[m].a.categories|)
      && LogOf(run[z], id) ==
           LogOf(run[b], id) + (if need then [Cleared(run[m].a.categories[..run[m].a.count])] else [])
           + [Event(c, iids)]
    ensures IidsArePositions(x, run[e].a, c, iids)
  {
    EventReachesSessions(x, run, t, c, p, q, k);
    b :| p < b < q && EntersAt(run, t, k, b);
    EnteringIsContext(x, run, t, c, p, q, k, b);
    z := LeavesStream(x, run, t, b + 1, q);
    d, m, e, iids := EventIsWritten(x, run, t, b + 1, z);
  }
}
