/** A run with more tracks than there is room for: refused tracks share a uuid with each other and
    with the track in the last slot. */
module RefusedTracks {
  import opened Common
  import opened Slots
  import opened Tracks

  /** Nobody is registering; tracks 0, 1, 2, ... are in the first slots. */
  ghost predicate Filled(s: State, count: nat, refused: set<Track>) {
    && |s.slots| == MAX_TRACKS && count <= MAX_TRACKS
    && (forall i :: 0 <= i < MAX_TRACKS ==> s.slots[i] == if i < count then Some(i) else None)
    && (forall t :: PcOf(s, t).Free?)
    && (forall track :: track in s.used ==> track < count || track in refused)
    && s.refused == refused
  }

  const THREAD: Thread := 0

  /** The thread is about to try a slot and has found all earlier ones filled. */
  ghost predicate Trying(s: State, count: nat, refused: set<Track>, track: Track, i: nat) {
    && |s.slots| == MAX_TRACKS && count <= MAX_TRACKS && i < MAX_TRACKS
    && (forall j :: 0 <= j < MAX_TRACKS ==> s.slots[j] == if j < count then Some(j) else None)
    && (forall t :: PcOf(s, t) == if t == THREAD then StoringUuid(track, i) else Free)
    && (forall used :: used in s.used ==> used < count || used in refused || used == track)
    && s.refused == refused
  }

  lemma BeginsTrying(run: seq<State>, count: nat, refused: set<Track>, track: Track, processUuid: bv64)
      returns (run': seq<State>)
    requires IsRun(run, processUuid) && Filled(Last(run), count, refused) && track !in Last(run).used
    ensures IsRun(run', processUuid) && Trying(Last(run'), count, refused, track, 0)
  {
    assert PcOf(Last(run), THREAD).Free?;
    run' := Extend(run, BeginRegister(THREAD, track), processUuid);
    run' := Extend(run', DoThread(THREAD), processUuid);
  }

  /** The next slot is filled: store its uuid, and fail to swap. */
  lemma TriesNext(run: seq<State>, count: nat, refused: set<Track>, track: Track, i: nat, processUuid: bv64)
      returns (run': seq<State>)
    requires IsRun(run, processUuid) && Trying(Last(run), count, refused, track, i) && i < count
    ensures IsRun(run', processUuid)
    ensures if i + 1 < MAX_TRACKS then Trying(Last(run'), count, refused, track, i + 1)
            else Filled(Last(run'), count, refused + {track})
  {
    assert PcOf(Last(run), THREAD) == StoringUuid(track, i);
    run' := Extend(run, DoThread(THREAD), processUuid);
    assert PcOf(Last(run'), THREAD) == Swapping(track, i);
    run' := Extend(run', DoThread(THREAD), processUuid);
  }

  lemma TriesUpTo(run: seq<State>, count: nat, refused: set<Track>, track: Track, i: nat, processUuid: bv64)
      returns (run': seq<State>)
    requires IsRun(run, processUuid) && Filled(Last(run), count, refused) && track !in Last(run).used
    requires i <= count && i < MAX_TRACKS
    ensures IsRun(run', processUuid) && Trying(Last(run'), count, refused, track, i)
  {
    run' := BeginsTrying(run, count, refused, track, processUuid);
    var j: nat := 0;
    while j < i
      invariant j <= i && IsRun(run', processUuid) && Trying(Last(run'), count, refused, track, j)
    {
      run' := TriesNext(run', count, refused, track, j, processUuid);
      j := j + 1;
    }
  }

  /** One more track is accepted. */
  lemma Accepts(run: seq<State>, count: nat, processUuid: bv64) returns (run': seq<State>)
    requires IsRun(run, processUuid) && Filled(Last(run), count, {}) && count < MAX_TRACKS
    ensures IsRun(run', processUuid) && Filled(Last(run'), count + 1, {})
  {
    run' := TriesUpTo(run, count, {}, count, count, processUuid);
    assert PcOf(Last(run'), THREAD) == StoringUuid(count, count);
    run' := Extend(run', DoThread(THREAD), processUuid);
    assert PcOf(Last(run'), THREAD) == Swapping(count, count);
    run' := Extend(run', DoThread(THREAD), processUuid);
  }

  /** Another track is refused. */
  lemma Refuses(run: seq<State>, refused: set<Track>, track: Track, processUuid: bv64) returns (run': seq<State>)
    requires IsRun(run, processUuid) && Filled(Last(run), MAX_TRACKS, refused) && track !in Last(run).used
    ensures IsRun(run', processUuid) && Filled(Last(run'), MAX_TRACKS, refused + {track})
  {
    run' := TriesUpTo(run, MAX_TRACKS, refused, track, MAX_TRACKS - 1, processUuid);
    run' := TriesNext(run', MAX_TRACKS, refused, track, MAX_TRACKS - 1, processUuid);
  }

  /** A complete run: 34 registrations, one after the other. The last two are refused, and three
      tracks end up with the uuid of slot 31, whatever the process uuid is. */
  lemma RefusedTracksCollide(processUuid: bv64) returns (run: seq<State>)
    ensures IsRun(run, processUuid)
    ensures var s := Last(run);
      && Stored(s.slots, 31) && s.refused == {32, 33}
      && UuidOf(s, 31) == UuidOf(s, 32) == UuidOf(s, 33)
      && IsCustomUuid(UuidOf(s, 31), 31, processUuid)
  {
    run := [Initial()];
    var count: nat := 0;
    while count < MAX_TRACKS
      invariant count <= MAX_TRACKS && IsRun(run, processUuid) && Filled(Last(run), count, {})
    {
      run := Accepts(run, count, processUuid);
      count := count + 1;
    }
    run := Refuses(run, {}, 32, processUuid);
    run := Refuses(run, {32}, 33, processUuid);
    assert Last(run).slots[31] == Some(31);
    assert Stored(Last(run).slots, 31);
    OnlyRefusedTracksCollide(run, |run| - 1, 31, 32, processUuid);
    OnlyRefusedTracksCollide(run, |run| - 1, 31, 33, processUuid);
    PublishedUuidIsFinal(run, |run| - 1, |run| - 1, 31, processUuid);
  }
}
