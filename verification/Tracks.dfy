/** Track registration (percetto_register_track) and its readers (the track loop of
    DoIncrementalUpdate), as a state machine over the atomic steps of any number of threads. */
module Tracks {
  import opened Common
  import opened Slots

  const CUSTOM_TRACK_ID_OFFSET: bv64 := 0x1_0000_0000

  /** The address of a percetto_track object. */
  type Track = nat
  type Thread = nat

  // ---------------------------------------------------------------- uuids

  function GetTrackUuid(trackId: bv64, processUuid: bv64): bv64 {
    trackId ^ processUuid
  }

  /** A slot number as an unsigned 64-bit integer. */
  function Index(i: nat): bv64
    requires i < MAX_TRACKS
  {
    i as bv5 as bv64
  }

  /** The uuid of the track in slot i. */
  function SlotUuid(i: nat, processUuid: bv64): bv64
    requires i < MAX_TRACKS
  {
    GetTrackUuid(CUSTOM_TRACK_ID_OFFSET + Index(i), processUuid)
  }

  lemma IndexIs(i: nat)
    requires i < 32
    ensures Index(i) == i as bv64
  {
    if i < 8 {
      assert i == 0 || i == 1 || i == 2 || i == 3 || i == 4 || i == 5 || i == 6 || i == 7;
    } else if i < 16 {
      assert i == 8 || i == 9 || i == 10 || i == 11 || i == 12 || i == 13 || i == 14 || i == 15;
    } else if i < 24 {
      assert i == 16 || i == 17 || i == 18 || i == 19 || i == 20 || i == 21 || i == 22 || i == 23;
    } else {
      assert i == 24 || i == 25 || i == 26 || i == 27 || i == 28 || i == 29 || i == 30 || i == 31;
    }
  }

  lemma Cancels(a: bv64, b: bv64)
    ensures (a ^ b) ^ b == a
  {
  }

  /** The uuid of the custom track in slot i: its id is 2^32 + i. */
  ghost predicate IsCustomUuid(uuid: bv64, i: nat, processUuid: bv64) {
    i < 32 && uuid ^ processUuid == 0x1_0000_0000 + (i as bv64)
  }

  lemma SlotUuidIs(uuid: bv64, i: nat, processUuid: bv64)
    requires i < 32 && uuid == SlotUuid(i, processUuid)
    ensures IsCustomUuid(uuid, i, processUuid)
  {
    IndexIs(i);
    Cancels(0x1_0000_0000 + Index(i), processUuid);
  }

  /** The uuid of a thread's own track: its id is the thread id. */
  lemma ThreadUuidIs(tid: bv64, processUuid: bv64)
    ensures GetTrackUuid(tid, processUuid) ^ processUuid == tid
  {
    Cancels(tid, processUuid);
  }

  lemma UuidInjective(a: bv64, b: bv64, processUuid: bv64)
    requires GetTrackUuid(a, processUuid) == GetTrackUuid(b, processUuid)
    ensures a == b
  {
    assert (a ^ processUuid) ^ processUuid == a;
    assert (b ^ processUuid) ^ processUuid == b;
  }

  lemma IndexRoundTrip(i: nat)
    requires i < MAX_TRACKS
    ensures (i as bv5) as nat == i
  {
  }

  lemma Widened(a: bv5, b: bv5)
    ensures a as bv64 < 32
    ensures a as bv64 == b as bv64 ==> a == b
  {
  }

  lemma OffsetIds(a: bv64, b: bv64, tid: bv64)
    requires a < 32 && b < 32 && tid <= 0xFFFF_FFFF
    ensures CUSTOM_TRACK_ID_OFFSET + a == CUSTOM_TRACK_ID_OFFSET + b ==> a == b
    ensures CUSTOM_TRACK_ID_OFFSET + a != tid && CUSTOM_TRACK_ID_OFFSET + a != 0
  {
  }

  lemma SlotUuidInjective(i: nat, j: nat, processUuid: bv64)
    requires i < MAX_TRACKS && j < MAX_TRACKS && SlotUuid(i, processUuid) == SlotUuid(j, processUuid)
    ensures i == j
  {
    UuidInjective(CUSTOM_TRACK_ID_OFFSET + Index(i), CUSTOM_TRACK_ID_OFFSET + Index(j), processUuid);
    Widened(i as bv5, j as bv5);
    Widened(j as bv5, i as bv5);
    OffsetIds(Index(i), Index(j), 0);
    IndexRoundTrip(i);
    IndexRoundTrip(j);
  }

  /** Process, thread and custom track uuids never collide: thread ids are positive and fit in
      32 bits, custom ids start above them. */
  lemma UuidsDistinct(i: nat, j: nat, tid: bv64, tid': bv64, processUuid: bv64)
    requires i < MAX_TRACKS && j < MAX_TRACKS && 0 < tid <= 0xFFFF_FFFF && 0 < tid' <= 0xFFFF_FFFF
    ensures SlotUuid(i, processUuid) == SlotUuid(j, processUuid) <==> i == j
    ensures GetTrackUuid(tid, processUuid) == GetTrackUuid(tid', processUuid) <==> tid == tid'
    ensures SlotUuid(i, processUuid) != GetTrackUuid(tid, processUuid)
    ensures SlotUuid(i, processUuid) != processUuid
    ensures GetTrackUuid(tid, processUuid) != processUuid
  {
    var custom := CUSTOM_TRACK_ID_OFFSET + Index(i);
    Widened(i as bv5, i as bv5);
    OffsetIds(Index(i), Index(i), tid);
    assert GetTrackUuid(0, processUuid) == processUuid;
    if SlotUuid(i, processUuid) == SlotUuid(j, processUuid) { SlotUuidInjective(i, j, processUuid); }
    if GetTrackUuid(tid, processUuid) == GetTrackUuid(tid', processUuid) { UuidInjective(tid, tid', processUuid); }
    if SlotUuid(i, processUuid) == GetTrackUuid(tid, processUuid) { UuidInjective(custom, tid, processUuid); }
    if SlotUuid(i, processUuid) == processUuid { UuidInjective(custom, 0, processUuid); }
    if GetTrackUuid(tid, processUuid) == processUuid { UuidInjective(tid, 0, processUuid); }
  }

  // ---------------------------------------------------------------- state machine

  /** A thread registering a track (store the parent, then per slot: store the uuid, swap) or
      describing the tracks of the array (per slot: load the pointer, load the uuid). Described
      lists the uuids written so far. */
  datatype ThreadPc =
    | Free
    | StoringParent(track: Track)
    | StoringUuid(track: Track, i: nat)
    | Swapping(track: Track, i: nat)
    | LoadingSlot(described: seq<bv64>)
    | LoadingUuid(track: Track, described: seq<bv64>)
    | Described(described: seq<bv64>)

  /** History: used (tracks handed to a registration) and refused (tracks it turned down). */
  datatype State = State(
    slots: seq<Option<Track>>,
    uuids: map<Track, bv64>,
    parents: map<Track, bv64>,
    threads: map<Thread, ThreadPc>,
    used: set<Track>,
    refused: set<Track>)

  function Initial(): State {
    State(seq(MAX_TRACKS, _ => None), map[], map[], map[], {}, {})
  }

  function PcOf(s: State, t: Thread): ThreadPc {
    if t in s.threads then s.threads[t] else Free
  }

  function UuidOf(s: State, track: Track): bv64 {
    if track in s.uuids then s.uuids[track] else 0
  }

  function ParentOf(s: State, track: Track): bv64 {
    if track in s.parents then s.parents[track] else 0
  }

  /** Loops end at the capacity of the array. */
  function Retry(track: Track, i: nat): ThreadPc {
    if i < MAX_TRACKS then StoringUuid(track, i) else Free
  }

  function Step(s: State, t: Thread, processUuid: bv64): State {
    match PcOf(s, t)
    case Free => s
    case StoringParent(track) =>
      s.(parents := s.parents[track := processUuid], threads := s.threads[t := StoringUuid(track, 0)])
    case StoringUuid(track, i) =>
      if i < MAX_TRACKS then
        s.(uuids := s.uuids[track := SlotUuid(i, processUuid)], threads := s.threads[t := Swapping(track, i)])
      else s
    case Swapping(track, i) =>
      if i < |s.slots| && s.slots[i].None? then
        s.(slots := s.slots[i := Some(track)], threads := s.threads[t := Free])
      else
        s.(threads := s.threads[t := Retry(track, i + 1)],
           refused := if i + 1 < MAX_TRACKS then s.refused else s.refused + {track})
    case LoadingSlot(described) =>
      var i := |described|;
      if i < |s.slots| && s.slots[i].Some? then
        s.(threads := s.threads[t := LoadingUuid(s.slots[i].value, described)])
      else s.(threads := s.threads[t := Described(described)])
    case LoadingUuid(track, described) =>
      s.(threads := s.threads[t := LoadingSlot(described + [UuidOf(s, track)])])
    case Described(_) => s.(threads := s.threads[t := Free])
  }

  datatype Action =
    | BeginRegister(t: Thread, track: Track)
    | BeginDescribe(t: Thread)
    | DoThread(t: Thread)

  /** A track object is registered at most once. */
  predicate Enabled(s: State, act: Action) {
    match act
    case BeginRegister(t, track) => PcOf(s, t).Free? && track !in s.used
    case BeginDescribe(t) => PcOf(s, t).Free?
    case DoThread(_) => true
  }

  function Do(s: State, act: Action, processUuid: bv64): State {
    match act
    case BeginRegister(t, track) =>
      s.(threads := s.threads[t := StoringParent(track)], used := s.used + {track})
    case BeginDescribe(t) => s.(threads := s.threads[t := LoadingSlot([])])
    case DoThread(t) => Step(s, t, processUuid)
  }

  ghost predicate StepAt(run: seq<State>, i: int, processUuid: bv64) {
    0 <= i < |run| - 1 && exists act :: Enabled(run[i], act) && run[i+1] == Do(run[i], act, processUuid)
  }

  /** Tracks are registered after percetto_init has computed the process uuid. */
  ghost predicate IsRun(run: seq<State>, processUuid: bv64) {
    && |run| > 0 && run[0] == Initial()
    && forall i :: 0 <= i < |run| - 1 ==> StepAt(run, i, processUuid)
  }

  // ---------------------------------------------------------------- extending runs

  function Last(run: seq<State>): State
    requires |run| > 0
  {
    run[|run|-1]
  }

  lemma Extend(run: seq<State>, act: Action, processUuid: bv64) returns (run': seq<State>)
    requires IsRun(run, processUuid) && Enabled(Last(run), act)
    ensures IsRun(run', processUuid) && run' == run + [Do(Last(run), act, processUuid)]
    ensures forall t :: t != act.t ==> PcOf(Last(run'), t) == PcOf(Last(run), t)
  {
    run' := run + [Do(Last(run), act, processUuid)];
    forall i | 0 <= i < |run'| - 1 ensures StepAt(run', i, processUuid) {
      if i < |run| - 1 {
        assert StepAt(run, i, processUuid);
        assert run'[i] == run[i] && run'[i+1] == run[i+1];
      } else {
        assert Enabled(run'[i], act) && run'[i+1] == Do(run'[i], act, processUuid);
      }
    }
  }

  // ---------------------------------------------------------------- invariant

  predicate Registering(pc: ThreadPc) {
    pc.StoringParent? || pc.StoringUuid? || pc.Swapping?
  }

  /** The registrant owns its track until it is stored or refused. */
  ghost predicate RegistrantOk(s: State, pc: ThreadPc, processUuid: bv64) {
    Registering(pc) ==>
      && pc.track in s.used && !Stored(s.slots, pc.track) && pc.track !in s.refused
      && (!pc.StoringParent? ==>
            && pc.i < MAX_TRACKS && FilledTo(s.slots, pc.i)
            && ParentOf(s, pc.track) == processUuid)
      && (pc.Swapping? && pc.i < MAX_TRACKS ==> UuidOf(s, pc.track) == SlotUuid(pc.i, processUuid))
  }

  /** What a reader has written so far is right. */
  ghost predicate ReaderOk(s: State, pc: ThreadPc, processUuid: bv64) {
    pc.LoadingSlot? || pc.LoadingUuid? || pc.Described? ==>
      && |pc.described| <= MAX_TRACKS && FilledTo(s.slots, |pc.described|)
      && (forall i :: 0 <= i < |pc.described| ==> pc.described[i] == SlotUuid(i, processUuid))
      && (pc.LoadingUuid? ==> |pc.described| < |s.slots| && s.slots[|pc.described|] == Some(pc.track))
  }

  ghost predicate Published(s: State, processUuid: bv64) {
    forall i :: 0 <= i < |s.slots| && i < MAX_TRACKS && s.slots[i].Some? ==>
      && UuidOf(s, s.slots[i].value) == SlotUuid(i, processUuid)
      && ParentOf(s, s.slots[i].value) == processUuid
  }

  ghost predicate Refused(s: State, processUuid: bv64) {
    (forall track :: track in s.refused ==>
       && FilledTo(s.slots, MAX_TRACKS) && track in s.used && !Stored(s.slots, track)
       && UuidOf(s, track) == SlotUuid(MAX_TRACKS - 1, processUuid))
  }

  ghost predicate Inv(s: State, processUuid: bv64) {
    && |s.slots| == MAX_TRACKS && Compact(s.slots) && NoRepeats(s.slots)
    && (forall track :: Stored(s.slots, track) ==> track in s.used)
    && Published(s, processUuid)
    && Refused(s, processUuid)
    && (forall t :: RegistrantOk(s, PcOf(s, t), processUuid) && ReaderOk(s, PcOf(s, t), processUuid))
    && (forall t, t' :: t != t' && Registering(PcOf(s, t)) && Registering(PcOf(s, t')) ==>
          PcOf(s, t).track != PcOf(s, t').track)
  }

  lemma InitialInv(processUuid: bv64)
    ensures Inv(Initial(), processUuid)
  {
  }

  /** A step of thread t that writes to the track it is registering at most. */
  lemma FrameInv(s: State, s': State, t: Thread, processUuid: bv64)
    requires Inv(s, processUuid)
    requires forall t' :: t' != t ==> PcOf(s', t') == PcOf(s, t')
    requires s'.slots == s.slots && s.used <= s'.used && s.refused <= s'.refused
    requires forall track :: track in s'.refused ==>
      track in s.refused || (Registering(PcOf(s, t)) && track == PcOf(s, t).track)
    requires forall track :: !(Registering(PcOf(s, t)) && track == PcOf(s, t).track) ==>
      UuidOf(s', track) == UuidOf(s, track) && ParentOf(s', track) == ParentOf(s, track)
    requires Registering(PcOf(s', t)) ==>
      if Registering(PcOf(s, t)) then PcOf(s', t).track == PcOf(s, t).track else PcOf(s', t).track !in s.used
    requires RegistrantOk(s', PcOf(s', t), processUuid) && ReaderOk(s', PcOf(s', t), processUuid)
    requires Refused(s', processUuid)
    ensures Inv(s', processUuid)
  {
    assert RegistrantOk(s, PcOf(s, t), processUuid);
    forall i | 0 <= i < |s.slots| && s.slots[i].Some?
      ensures UuidOf(s', s.slots[i].value) == UuidOf(s, s.slots[i].value)
      ensures ParentOf(s', s.slots[i].value) == ParentOf(s, s.slots[i].value)
    {
      assert Stored(s.slots, s.slots[i].value);
    }
    forall t' | t' != t ensures RegistrantOk(s', PcOf(s', t'), processUuid) && ReaderOk(s', PcOf(s', t'), processUuid) {
      assert RegistrantOk(s, PcOf(s, t'), processUuid) && ReaderOk(s, PcOf(s, t'), processUuid);
    }
    forall t' | t' != t && Registering(PcOf(s', t)) && Registering(PcOf(s', t'))
      ensures PcOf(s', t).track != PcOf(s', t').track
    {
      assert RegistrantOk(s, PcOf(s, t'), processUuid);
    }
  }

  lemma PublishKeepsSlots(s: State, t: Thread, processUuid: bv64)
    requires Inv(s, processUuid) && PcOf(s, t).Swapping?
    requires PcOf(s, t).i < |s.slots| && s.slots[PcOf(s, t).i].None?
    ensures var s' := Step(s, t, processUuid);
      && KeepsSlots(s.slots, s'.slots)
      && |s'.slots| == MAX_TRACKS && Compact(s'.slots) && NoRepeats(s'.slots)
      && (forall track :: Stored(s'.slots, track) ==> track in s'.used)
      && Published(s', processUuid) && Refused(s', processUuid)
      && !Registering(PcOf(s', t))
  {
    assert RegistrantOk(s, PcOf(s, t), processUuid);
    FillSlot(s.slots, PcOf(s, t).i, PcOf(s, t).track);
  }

  lemma ThreadsFollowPublish(s: State, t: Thread, t': Thread, processUuid: bv64)
    requires Inv(s, processUuid) && PcOf(s, t).Swapping?
    requires PcOf(s, t).i < |s.slots| && s.slots[PcOf(s, t).i].None?
    ensures var s' := Step(s, t, processUuid);
      && (t' != t ==> PcOf(s', t') == PcOf(s, t'))
      && RegistrantOk(s', PcOf(s', t'), processUuid) && ReaderOk(s', PcOf(s', t'), processUuid)
  {
    FillSlot(s.slots, PcOf(s, t).i, PcOf(s, t).track);
    assert RegistrantOk(s, PcOf(s, t), processUuid);
    assert RegistrantOk(s, PcOf(s, t'), processUuid) && ReaderOk(s, PcOf(s, t'), processUuid);
  }

  /** The compare-and-swap that publishes a track. */
  lemma PublishKeepsInv(s: State, t: Thread, processUuid: bv64)
    requires Inv(s, processUuid) && PcOf(s, t).Swapping?
    requires PcOf(s, t).i < |s.slots| && s.slots[PcOf(s, t).i].None?
    ensures Inv(Step(s, t, processUuid), processUuid) && KeepsSlots(s.slots, Step(s, t, processUuid).slots)
  {
    var s' := Step(s, t, processUuid);
    var Swapping(track, i) := PcOf(s, t);
    assert RegistrantOk(s, PcOf(s, t), processUuid);
    PublishKeepsSlots(s, t, processUuid);
    forall t' ensures t' != t ==> PcOf(s', t') == PcOf(s, t') {
      ThreadsFollowPublish(s, t, t', processUuid);
    }
  }

  lemma SwapFailsKeepsInv(s: State, t: Thread, processUuid: bv64)
    requires Inv(s, processUuid) && PcOf(s, t).Swapping?
    requires PcOf(s, t).i < |s.slots| && s.slots[PcOf(s, t).i].Some?
    ensures Inv(Step(s, t, processUuid), processUuid)
  {
    var s' := Step(s, t, processUuid);
    assert RegistrantOk(s, PcOf(s, t), processUuid);
    forall t' | t' != t ensures PcOf(s', t') == PcOf(s, t') {
    }
    FrameInv(s, s', t, processUuid);
  }

  lemma StoreKeepsInv(s: State, t: Thread, processUuid: bv64)
    requires Inv(s, processUuid) && (PcOf(s, t).StoringParent? || PcOf(s, t).StoringUuid?)
    ensures Inv(Step(s, t, processUuid), processUuid)
  {
    var s' := Step(s, t, processUuid);
    assert RegistrantOk(s, PcOf(s, t), processUuid);
    forall t' | t' != t ensures PcOf(s', t') == PcOf(s, t') {
    }
    FrameInv(s, s', t, processUuid);
  }

  lemma ReaderStaysOk(s: State, t: Thread, processUuid: bv64)
    requires Inv(s, processUuid) && (PcOf(s, t).LoadingSlot? || PcOf(s, t).LoadingUuid? || PcOf(s, t).Described?)
    ensures var s' := Step(s, t, processUuid);
      && ReaderOk(s', PcOf(s', t), processUuid) && !Registering(PcOf(s', t))
      && s'.slots == s.slots && s'.used == s.used && s'.refused == s.refused
      && forall track :: UuidOf(s', track) == UuidOf(s, track) && ParentOf(s', track) == ParentOf(s, track)
  {
    assert ReaderOk(s, PcOf(s, t), processUuid);
  }

  lemma ReadKeepsInv(s: State, t: Thread, processUuid: bv64)
    requires Inv(s, processUuid) && (PcOf(s, t).LoadingSlot? || PcOf(s, t).LoadingUuid? || PcOf(s, t).Described?)
    ensures Inv(Step(s, t, processUuid), processUuid)
  {
    var s' := Step(s, t, processUuid);
    ReaderStaysOk(s, t, processUuid);
    forall t' | t' != t ensures PcOf(s', t') == PcOf(s, t') {
    }
    FrameInv(s, s', t, processUuid);
  }

  lemma StepKeepsInv(s: State, t: Thread, processUuid: bv64)
    requires Inv(s, processUuid)
    ensures Inv(Step(s, t, processUuid), processUuid) && KeepsSlots(s.slots, Step(s, t, processUuid).slots)
  {
    var pc := PcOf(s, t);
    assert RegistrantOk(s, pc, processUuid);
    match pc
    case Free =>
    case Swapping(_, i) =>
      if s.slots[i].None? { PublishKeepsInv(s, t, processUuid); } else { SwapFailsKeepsInv(s, t, processUuid); }
    case StoringParent(_) => StoreKeepsInv(s, t, processUuid);
    case StoringUuid(_, _) => StoreKeepsInv(s, t, processUuid);
    case _ => ReadKeepsInv(s, t, processUuid);
  }

  lemma DoKeepsInv(s: State, act: Action, processUuid: bv64)
    requires Inv(s, processUuid) && Enabled(s, act)
    ensures Inv(Do(s, act, processUuid), processUuid) && KeepsSlots(s.slots, Do(s, act, processUuid).slots)
  {
    match act
    case DoThread(t) => StepKeepsInv(s, t, processUuid);
    case _ =>
      var s' := Do(s, act, processUuid);
      forall t' | t' != act.t ensures PcOf(s', t') == PcOf(s, t') {
      }
      FrameInv(s, s', act.t, processUuid);
  }

  // ---------------------------------------------------------------- theorems over runs

  lemma {:induction false} InvAlways(run: seq<State>, n: nat, processUuid: bv64)
    requires IsRun(run, processUuid) && n < |run|
    ensures Inv(run[n], processUuid)
    ensures n > 0 ==> KeepsSlots(run[n-1].slots, run[n].slots)
  {
    if n == 0 {
      InitialInv(processUuid);
    } else {
      InvAlways(run, n - 1, processUuid);
      assert StepAt(run, n - 1, processUuid);
      var act :| Enabled(run[n-1], act) && run[n] == Do(run[n-1], act, processUuid);
      DoKeepsInv(run[n-1], act, processUuid);
    }
  }

  lemma {:induction false} SlotsKept(run: seq<State>, m: nat, n: nat, processUuid: bv64)
    requires IsRun(run, processUuid) && m <= n < |run|
    ensures KeepsSlots(run[m].slots, run[n].slots)
  {
    if m < n {
      SlotsKept(run, m, n - 1, processUuid);
      InvAlways(run, n, processUuid);
    }
  }

  /** From the instant a track is visible in slot i, its uuid is (2^32 + i) XOR the process uuid
      and its parent the process, for ever, although the registrant rewrote the uuid on every
      attempt. */
  lemma PublishedUuidIsFinal(run: seq<State>, m: nat, n: nat, i: nat, processUuid: bv64)
    requires IsRun(run, processUuid) && m <= n < |run|
    requires i < 32 && |run[m].slots| == 32 && run[m].slots[i].Some?
    ensures |run[n].slots| == 32 && run[n].slots[i] == run[m].slots[i]
    ensures IsCustomUuid(UuidOf(run[n], run[m].slots[i].value), i, processUuid)
    ensures ParentOf(run[n], run[m].slots[i].value) == processUuid
  {
    SlotsKept(run, m, n, processUuid);
    InvAlways(run, n, processUuid);
    SlotUuidIs(UuidOf(run[n], run[m].slots[i].value), i, processUuid);
  }

  /** A reader that has finished has described every track that was visible when it began, each
      under its slot's uuid and in slot order. */
  lemma ReadersDescribePrefix(run: seq<State>, m: nat, n: nat, t: Thread, processUuid: bv64)
    requires IsRun(run, processUuid) && m <= n && n + 1 < |run|
    requires PcOf(run[n], t).LoadingSlot? && run[n+1] == Step(run[n], t, processUuid) && PcOf(run[n+1], t).Described?
    ensures var described := PcOf(run[n+1], t).described;
      && |described| <= 32 == |run[m].slots|
      && (forall i: nat :: i < |described| ==> IsCustomUuid(described[i], i, processUuid))
      && (forall i :: |described| <= i < 32 ==> run[m].slots[i].None?)
  {
    InvAlways(run, m, processUuid);
    InvAlways(run, n, processUuid);
    SlotsKept(run, m, n, processUuid);
    assert ReaderOk(run[n], PcOf(run[n], t), processUuid);
    var described := PcOf(run[n], t).described;
    forall i: nat | i < |described| ensures IsCustomUuid(described[i], i, processUuid) {
      SlotUuidIs(described[i], i, processUuid);
    }
    forall i | |described| <= i < MAX_TRACKS ensures run[m].slots[i].None? {
      assert run[n].slots[i].None?;
    }
  }

  /** The slot whose uuid a track is left with: its own, or the last one for a refused track. */
  ghost predicate LeftWith(s: State, track: Track, i: nat) {
    if track in s.refused then i == MAX_TRACKS - 1
    else i < |s.slots| && s.slots[i] == Some(track)
  }

  ghost predicate Finished(s: State, track: Track) {
    Stored(s.slots, track) || track in s.refused
  }

  lemma FinishedUuid(run: seq<State>, n: nat, track: Track, processUuid: bv64) returns (i: nat)
    requires IsRun(run, processUuid) && n < |run| && Finished(run[n], track)
    ensures |run[n].slots| == MAX_TRACKS && i < MAX_TRACKS && LeftWith(run[n], track, i)
    ensures UuidOf(run[n], track) == SlotUuid(i, processUuid)
  {
    InvAlways(run, n, processUuid);
    if track in run[n].refused {
      i := MAX_TRACKS - 1;
    } else {
      i :| 0 <= i < |run[n].slots| && run[n].slots[i] == Some(track);
    }
  }

  /** Which tracks share a uuid once their registrations are over: a refused one shares the last
      slot's with every other refused one and with the track in that slot; no others do. Events
      on a refused track, which the atrace layer still emits, land on that other track. */
  lemma OnlyRefusedTracksCollide(run: seq<State>, n: nat, a: Track, b: Track, processUuid: bv64)
    requires IsRun(run, processUuid) && n < |run| && a != b && Finished(run[n], a) && Finished(run[n], b)
    ensures |run[n].slots| == 32
    ensures var s := run[n];
      var last := s.slots[31];
      UuidOf(s, a) == UuidOf(s, b) <==>
        || (a in s.refused && b in s.refused)
        || (a in s.refused && last == Some(b))
        || (b in s.refused && last == Some(a))
  {
    var i := FinishedUuid(run, n, a, processUuid);
    var j := FinishedUuid(run, n, b, processUuid);
    InvAlways(run, n, processUuid);
    if UuidOf(run[n], a) == UuidOf(run[n], b) {
      SlotUuidInjective(i, j, processUuid);
    }
  }
}
