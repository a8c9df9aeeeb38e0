/** Registering and describing tracks never gets stuck, and what a finished registration has
    achieved. */
module TrackProgress {
  import opened Common
  import opened Slots
  import opened Tracks

  /** Own steps that a thread has left. */
  function Rank(pc: ThreadPc): nat {
    match pc
    case Free => 0
    case StoringParent(_) => 66
    case StoringUuid(_, i) => if i < 32 then 65 - 2 * i else 0
    case Swapping(_, i) => if i < 32 then 64 - 2 * i else 0
    case LoadingSlot(described) => if |described| <= 32 then 66 - 2 * |described| else 0
    case LoadingUuid(_, described) => if |described| <= 32 then 65 - 2 * |described| else 0
    case Described(_) => 1
  }

  lemma StepLeads(s: State, t: Thread, processUuid: bv64)
    requires Inv(s, processUuid) && !PcOf(s, t).Free?
    ensures 0 < Rank(PcOf(s, t)) <= 66 && Rank(PcOf(Step(s, t, processUuid), t)) < Rank(PcOf(s, t))
  {
    assert RegistrantOk(s, PcOf(s, t), processUuid) && ReaderOk(s, PcOf(s, t), processUuid);
  }

  lemma OthersLeaveIt(s: State, act: Action, t: Thread, processUuid: bv64)
    requires Enabled(s, act) && act != DoThread(t) && !PcOf(s, t).Free?
    ensures PcOf(Do(s, act, processUuid), t) == PcOf(s, t)
  {
  }

  lemma ActionAt(run: seq<State>, n: nat, processUuid: bv64) returns (act: Action)
    requires IsRun(run, processUuid) && n + 1 < |run|
    ensures Enabled(run[n], act) && run[n+1] == Do(run[n], act, processUuid)
  {
    assert StepAt(run, n, processUuid);
    act :| Enabled(run[n], act) && run[n+1] == Do(run[n], act, processUuid);
  }

  // ---------------------------------------------------------------- bounded

  ghost predicate MovesAt(run: seq<State>, p: nat, t: Thread, processUuid: bv64) {
    p + 1 < |run| && run[p+1] == Step(run[p], t, processUuid)
  }

  /** How many steps of its own a thread takes between two states. */
  ghost function Moves(run: seq<State>, n: nat, m: nat, t: Thread, processUuid: bv64): nat
    requires n <= m
    decreases m
  {
    if n == m then 0 else Moves(run, n, m - 1, t, processUuid) + if MovesAt(run, m - 1, t, processUuid) then 1 else 0
  }

  /** The rank never rises, and falls with every step of the thread's own. */
  ghost predicate Falls(run: seq<State>, p: nat, t: Thread, processUuid: bv64) {
    && p + 1 < |run|
    && Rank(PcOf(run[p+1], t)) + (if MovesAt(run, p, t, processUuid) then 1 else 0) <= Rank(PcOf(run[p], t))
  }

  lemma MoveCounts(run: seq<State>, p: nat, t: Thread, processUuid: bv64)
    requires IsRun(run, processUuid) && p + 1 < |run| && !PcOf(run[p], t).Free?
    ensures Falls(run, p, t, processUuid)
  {
    InvAlways(run, p, processUuid);
    StepLeads(run[p], t, processUuid);
    if !MovesAt(run, p, t, processUuid) {
      var act := ActionAt(run, p, processUuid);
      OthersLeaveIt(run[p], act, t, processUuid);
    }
  }

  lemma {:induction false} MovesCount(run: seq<State>, n: nat, m: nat, t: Thread, processUuid: bv64)
    requires n <= m < |run| && forall p: nat :: n <= p < m ==> Falls(run, p, t, processUuid)
    ensures Moves(run, n, m, t, processUuid) + Rank(PcOf(run[m], t)) <= Rank(PcOf(run[n], t))
    decreases m
  {
    if n < m {
      MovesCount(run, n, m - 1, t, processUuid);
      var last: nat := m - 1;
      assert Falls(run, last, t, processUuid);
    }
  }

  /** Wait freedom: a registration, and a description of all tracks, is over after at most 66
      steps of its own, whatever the others do meanwhile. */
  lemma EndsAfterItsOwnSteps(run: seq<State>, n: nat, m: nat, t: Thread, processUuid: bv64)
    requires IsRun(run, processUuid) && n <= m < |run|
    requires forall p: nat :: n <= p < m ==> !PcOf(run[p], t).Free?
    ensures Moves(run, n, m, t, processUuid) <= 66
  {
    forall p: nat | n <= p < m ensures Falls(run, p, t, processUuid) {
      MoveCounts(run, p, t, processUuid);
    }
    MovesCount(run, n, m, t, processUuid);
    if n < m {
      InvAlways(run, n, processUuid);
      StepLeads(run[n], t, processUuid);
    }
  }

  /** And it can always get there, by its own steps alone. */
  lemma {:induction false} CanFinish(run: seq<State>, t: Thread, processUuid: bv64) returns (run': seq<State>)
    requires IsRun(run, processUuid)
    ensures IsRun(run', processUuid) && run <= run' && PcOf(Last(run'), t).Free?
    ensures forall p: nat :: |run| - 1 <= p < |run'| - 1 ==> MovesAt(run', p, t, processUuid)
    decreases Rank(PcOf(Last(run), t))
  {
    if PcOf(Last(run), t).Free? {
      run' := run;
    } else {
      InvAlways(run, |run| - 1, processUuid);
      StepLeads(Last(run), t, processUuid);
      var next := Extend(run, DoThread(t), processUuid);
      run' := CanFinish(next, t, processUuid);
      forall p: nat | |run| - 1 <= p < |run'| - 1 ensures MovesAt(run', p, t, processUuid) {
        if p == |run| - 1 {
          assert run'[p] == next[p] && run'[p+1] == next[p+1];
        }
      }
    }
  }

  // ---------------------------------------------------------------- what a registration achieves

  ghost predicate Registers(s: State, t: Thread, track: Track) {
    Registering(PcOf(s, t)) && PcOf(s, t).track == track
  }

  lemma RegistersStep(s: State, t: Thread, track: Track, processUuid: bv64)
    requires Inv(s, processUuid) && Registers(s, t, track)
    ensures var s' := Step(s, t, processUuid);
      Registers(s', t, track) || (PcOf(s', t).Free? && Finished(s', track))
  {
    assert RegistrantOk(s, PcOf(s, t), processUuid);
    if PcOf(s, t).Swapping? && s.slots[PcOf(s, t).i].None? {
      assert Step(s, t, processUuid).slots[PcOf(s, t).i] == Some(track);
    }
  }

  lemma RegistersNext(run: seq<State>, n: nat, t: Thread, track: Track, processUuid: bv64)
    requires IsRun(run, processUuid) && n + 1 < |run| && Registers(run[n], t, track)
    ensures Registers(run[n+1], t, track) || (PcOf(run[n+1], t).Free? && Finished(run[n+1], track))
  {
    InvAlways(run, n, processUuid);
    var act := ActionAt(run, n, processUuid);
    if act == DoThread(t) {
      RegistersStep(run[n], t, track, processUuid);
    } else {
      OthersLeaveIt(run[n], act, t, processUuid);
    }
  }

  lemma {:induction false} RegistersUntil(run: seq<State>, n: nat, m: nat, t: Thread, track: Track, processUuid: bv64)
    requires IsRun(run, processUuid) && n <= m < |run| && Registers(run[n], t, track)
    requires forall p: nat :: n <= p < m ==> !PcOf(run[p], t).Free?
    ensures Registers(run[m], t, track) || (PcOf(run[m], t).Free? && Finished(run[m], track))
    decreases m
  {
    if n < m {
      RegistersUntil(run, n, m - 1, t, track, processUuid);
      RegistersNext(run, m - 1, t, track, processUuid);
    }
  }

  lemma FinishedIs(run: seq<State>, n: nat, track: Track, processUuid: bv64) returns (i: nat)
    requires IsRun(run, processUuid) && n < |run| && Finished(run[n], track)
    ensures |run[n].slots| == 32 && i < 32 && IsCustomUuid(UuidOf(run[n], track), i, processUuid)
    ensures run[n].slots[i] == Some(track)
            || (i == 31 && forall j :: 0 <= j < 32 ==> run[n].slots[j].Some? && run[n].slots[j] != Some(track))
  {
    i := FinishedUuid(run, n, track, processUuid);
    InvAlways(run, n, processUuid);
    SlotUuidIs(UuidOf(run[n], track), i, processUuid);
  }

  /** When percetto_register_track returns, the track is in a slot, with that slot's uuid; or all
      32 slots hold other tracks, and it is left with the uuid of the last. */
  lemma RegistrationEnds(run: seq<State>, n: nat, m: nat, t: Thread, track: Track, processUuid: bv64)
      returns (i: nat)
    requires IsRun(run, processUuid) && n < m < |run| && Enabled(run[n], BeginRegister(t, track))
    requires run[n+1] == Do(run[n], BeginRegister(t, track), processUuid)
    requires PcOf(run[m], t).Free? && forall p: nat :: n < p < m ==> !PcOf(run[p], t).Free?
    ensures |run[m].slots| == 32 && i < 32 && IsCustomUuid(UuidOf(run[m], track), i, processUuid)
    ensures run[m].slots[i] == Some(track)
            || (i == 31 && forall j :: 0 <= j < 32 ==> run[m].slots[j].Some? && run[m].slots[j] != Some(track))
  {
    RegistersUntil(run, n + 1, m, t, track, processUuid);
    i := FinishedIs(run, m, track, processUuid);
  }
}
