# Percetto, verified

Percetto is a C wrapper around the Perfetto tracing SDK. A program defines *categories* and *groups*
of up to four categories; every category object carries a mask with one bit for each tracing session
that wants it, and a trace macro costs one load of that mask while no session does. The library keeps
those masks right while sessions start and stop, threads register groups and counter tracks without
locks, and events are written to per-thread packet sequences. This project models that logic in Dafny
and proves what every run of it keeps.

`dafny verify dfyconfig.toml` checks everything.

## How it is organised

| file | what it models |
|---|---|
| `Machine.dfy` | the shared state of `src/percetto.cc` as a state machine: init, session setup and stop, the group registry, group mask updates, event streams; one atomic access is one step |
| `Slots.dfy`, `Registry.dfy`, `Inits.dfy` | the lock-free arrays, over all interleavings, and what an init call has stored when it is over |
| `Progress.dfy` | every init call, callback, registration and event ends after a bounded number of its own steps, and what it has achieved then |
| `Provenance.dfy`, `History.dfy` | where the bits of masks come from; a mask is the history of its sessions |
| `GroupMasks.dfy`, `Races.dfy`, `Stores.dfy`, `LostUpdates.dfy` | when a group's mask is the OR of its children's, what holds of it however updates race, the exact condition, and two runs in which it fails |
| `Streams.dfy`, `Events.dfy`, `UnresolvedIids.dfy` | interning of category names in packet sequences, what tracing an event writes and to whom, and a run with ids that were never interned |
| `Tracks.dfy`, `TrackProgress.dfy`, `RefusedTracks.dfy` | registration and publication of counter tracks, their uuids, why it always ends, and a run in which uuids collide |
| `Percetto.dfy` | the library object in its own imperative form, operation by operation |
| `AtraceMemo.dfy`, `Atrace.dfy`, `CallSites.dfy` | the atrace layer: its memo tables as values and over runs of calls, its objects, and its lazy initialisation and call-site caches as a state machine |
| `Filter.dfy` | which categories a session configuration enables |
| `Scopes.dfy`, `Annotations.dfy`, `Fnv.dfy`, `FnvConstants.dfy` | scoped events, annotation chains, the hash behind the process uuid |
| `Masks.dfy` | why masks and tag words may be treated as sets of bits |

The atomics are sequentially consistent: a step is one load, store, compare-and-swap, fetch-or or
fetch-and. Where the sources update fields in place there is also a class whose methods have the
sources' loops; the state machines add the interleavings.

The proofs rest on these conditions, which the code does not enforce:

- Calls of `percetto_init` do not overlap. The header says the call is not thread safe
  (`src/percetto.h:95`), and the `lock_guard` at `src/percetto.cc:624` is an unnamed temporary that is
  destroyed at once. Sessions and registrations do interleave with init.
- A category, group or track object is registered at most once, and it starts out zero.
- Session instance indices are below 32, the width in which group sums are kept.
- Named categories have no children and the children of groups are named, as the defining macros
  produce them.
- Tracks are registered after `percetto_init` has computed the process uuid; thread ids are positive
  and fit in 32 bits.

## Where the code differs from what it says

- The comment at `src/percetto.cc:313` says that several threads can update one group at once. They
  can, but the plain store at line 327 can then replace a newer sum by an older one, and the group
  misses a session until some later callback: `LostUpdates.StaleStoreWins` is such a run. A group that
  nobody is updating has the right mask if and only if the last store to its slot was of a sum that was
  still up to date at that moment: `Stores.QuietGroupIsExactExactlyWhen`.
- The header allows one init call (`src/percetto.h:95`), the code supports several. Groups added by an
  init call are not updated (`src/percetto.cc:679-681`), so a later call can add a group whose mask
  misses active sessions: `LostUpdates.InitAddsStaleGroup` is such a run, `Stores.NeverStored` and
  `PercettoLibrary.Percetto.AddObjects` say exactly when it happens.
- A track whose registration is refused keeps the uuid of the last slot, which belongs to another
  track, and so does every other refused track; the atrace layer ignores the refusal and uses the track.
  `Tracks.OnlyRefusedTracksCollide` says which tracks share a uuid, `RefusedTracks.RefusedTracksCollide`
  is a run with three that do.
- The first configured disabled tag replaces the default tags "slow" and "debug", so disabling a tag
  can enable a category: `Filter.FirstDisabledTagsEnable`.
- An event carries category ids that were never interned when its category, or a child of its group, had
  not been published by the time of the sequence's last interning packet, because it was registered later
  or dropped by a full array: `Streams.EventResolvesExactlyWhenPublished`, and a run with two such events,
  `UnresolvedIids.EventsLeftUnresolved`.
- After a failed registration with the SDK, `percetto_init` returns -1 but keeps its categories and its
  initialised flag, so the next call succeeds: `PercettoLibrary.Percetto.InitWithArgs`.

## Model

| member | source | states |
|---|---|---|
| `Filter.MatchIsGlob` | src/perfetto-port.cc:31-44 | for patterns whose only stars are at the end, pattern mode accepts exactly what a recursive glob accepts |
| `Filter.GlobImpliesMatch` | src/perfetto-port.cc:31-44 | for every pattern, whatever the glob accepts is accepted |
| `Filter.MatchIsGlobExactlyWhenTrailing` | src/perfetto-port.cc:36-43 | pattern mode agrees with the glob on all names if and only if nothing but stars follows the first star, which is what the debug check at line 38 is about |
| `Filter.ExactMatch` | src/perfetto-port.cc:39-43 | exact mode matches if and only if there is no star and the strings are equal |
| `Filter.PassMeaning` | src/perfetto-port.cc:73-106 | one pass decides by four declarative rules in order; the second pass re-tests plain patterns, which could only have decided in the first |
| `Filter.FilterRefinement` | src/perfetto-port.cc:58-110 | for all names, nullable tags and configurations, the two-pass loop is "exact enable, exact disable, wildcard enable, wildcard disable, else enabled", with the default disabled tags as exact disables |
| `Filter.FilterMonotone` | src/perfetto-port.cc:58-110 | adding enabled patterns never disables a category, adding disabled ones never enables one if there were disabled tags already; order, repetition and padding do not matter |
| `Filter.FilterDependsOnSets` | src/perfetto-port.cc:46-54 | the verdict is a function of the sets of patterns and non-null tags |
| `Filter.FirstDisabledTagsEnable` | src/perfetto-port.cc:94-105 | configuring the first disabled tags enables a category exactly when the defaults were what disabled it and nothing configured does |
| `Filter.DisablingATagCanEnable` | src/perfetto-port.cc:94-105 | a concrete category that disabling an unrelated tag switches on |
| `Slots.FillSlot` | src/percetto.cc:594-600 | a successful compare-and-swap after finding all earlier slots filled keeps the array compact, free of repeats and write-once |
| `Registry.RegistryAlways` | src/percetto.cc:589-604 | in every reachable state the groups form a prefix without repeats, the category array holds named, correctly numbered objects, and every scan and adder is within them; what an init call adds is `Inits.InitStoresItsList` |
| `Registry.WriteOnce` | src/percetto.cc:589-604 | between any two states of a run filled slots keep their contents and the category array and count only grow |
| `Registry.AddersOwnTheirSlots` | src/percetto.cc:594-600 | any two successful adders of a run get different slots, and keep them |
| `Registry.RefusedOnlyWhenFull` | src/percetto.cc:594-604 | an adder is refused only when all slots are filled, after one attempt at each |
| `Registry.ScanSeesPrefix` | src/percetto.cc:333-341 | a scan that stops at an empty slot has passed exactly the groups there were, and they stay where they are |
| `Inits.InitStoresItsList` | src/percetto.cc:662-681 | in every run, a finished init call has published the named objects at the beginning of its list, in order and up to 64 categories in all, and nothing else; each of the others is in the group array unless its 32 slots are full |
| `Progress.EndsAfterItsOwnSteps` | src/percetto.cc:267-341 | wait freedom: whatever others do, a callback is over after at most 300 steps of its own, a registration after 40, an init call after 35 per object and 35, an event after 4 per bit of its mask and 1 |
| `Progress.CanFinish` | src/percetto.cc:267-341 | every reachable state is continued, by steps of one operation alone, to a state in which it is over |
| `Progress.RegistrationEnds` | src/percetto.cc:589-604 | when a group registration returns, the group is in one of the 32 slots or all of them are taken |
| `Progress.SetupEnds` | src/percetto.cc:267-291 | a finished setup leaves its session active with the configuration it was given |
| `Progress.StopEnds` | src/percetto.cc:295-302 | a finished stop leaves the instance index free |
| `Provenance.ProvenanceAlways` | src/percetto.cc:277-290 | every bit in a mask, in a sum being computed or in a mask an event has loaded belongs to a session whose setup scanned the category or one of its children |
| `History.MaskIsSessionHistory` | src/percetto.cc:267-303 | between callbacks a session's bit is set in exactly the categories below the count its setup loaded for which the most specific rule of its parsed configuration says so; an idle index has no bits; nothing others do disturbs this |
| `History.CountIsFromSetup` | src/percetto.cc:277 | the count a session carries was the published one at its own setup |
| `History.ConfigIsFromSetup` | src/percetto.cc:267-276 | the configuration a session carries is the one that began its use of the index |
| `GroupMasks.FreshStep` | src/percetto.cc:314-341 | a group slot stays under control in every step except exactly two: its last owed update starts over a stale one still in flight, or an init call adds a group with active children |
| `GroupMasks.InSum` | src/percetto.cc:322-327 | the sum over a group has a session's bit if and only if one of its four children has it |
| `GroupMasks.StepKeepsSums` | src/percetto.cc:314-329 | while no callback is changing children, no step changes the OR of any group's children |
| `GroupMasks.SerializedIsCalm` | src/percetto.cc:314-329 | while updates of a slot do not overlap, no step loses control of it |
| `GroupMasks.ExactWhenSerialized` | src/percetto.cc:278-302 | from the registration of a group on, or from any callback under way, its mask equals the OR of its children's whenever nobody is updating it, as long as updates of its slot do not overlap |
| `Stores.RegisteredGroupIsExact` | src/percetto.cc:688-697 | from its registrant's compare-and-swap on, a group's mask equals the OR of its children's whenever nobody is updating it, as long as updates of its slot do not overlap |
| `Stores.LastStoreDecides` | src/percetto.cc:314-329 | in every interleaving, a quiet group's mask is the OR of its children's if and only if what the update that stored last had read was still what the children held when it stored |
| `Stores.NeverStored` | src/percetto.cc:678-681 | a quiet slot nobody has stored to was filled by an init call, and its group is right if and only if its children had no sessions then |
| `Stores.QuietGroupIsExactExactlyWhen` | src/percetto.cc:311-341 | the two together: the exact condition for every filled, quiet slot of every run |
| `Races.SumWithinInterval` | src/percetto.cc:322-327 | in every interleaving, what an update stores has every bit that some child held throughout it and only bits that some child held at some moment of it |
| `Races.RestingSessionsAreSeen` | src/percetto.cc:322-327 | a complete update stores the bit of a session that is between callbacks exactly when that session wants one of the children |
| `Races.NoMissedUpdate` | src/percetto.cc:314-341 | if a callback's scan ended at an empty slot and a group is added there or later, the sum that the registrant's own update is about to store has that session's bit exactly when it should |
| `Stores.NoMissedUpdateInMask` | src/percetto.cc:314-341 | and from the first store to that slot by anybody until the session's next callback, so does the group's mask, in every interleaving |
| `LostUpdates.StaleStoreWins` | src/percetto.cc:311-329 | a complete run after which a quiet group's mask is not the OR of its children's: an older sum overwrote a newer one |
| `LostUpdates.InitAddsStaleGroup` | src/percetto.cc:678-681 | a complete run in which a second init call leaves a group with such a mask |
| `Streams.StreamsAlways` | src/percetto.cc:382-399 | in every reachable state every packet sequence begins with an interning packet, each of these lists at least the categories that this use of the instance was set up with, and events are of those or of their groups; what an event adds is `Events.EventIsWritten` |
| `Streams.EventsResolve` | src/percetto.cc:395-423 | interning safety: in every reachable state every category id in every event packet resolves, through the last interning packet before it, to the category it was written for, if the category is named or its children came from one init call |
| `Streams.EmittedIidResolvesExactlyWhenListed` | src/percetto.cc:417-423 | without that condition, an id about to be written resolves exactly when the last interning packet lists the category |
| `Streams.EventResolvesExactlyWhenPublished` | src/percetto.cc:395-423 | all ids of an event in a log resolve if and only if init calls had published its category, or every child of its group, when the last interning packet before it was written |
| `Events.EventIsWritten` | src/percetto.cc:382-399 | one stay of a thread in a sequence, in every interleaving and whatever the log holds: if the sequence needs an update when the thread tests for it, one interning packet with the categories published by then, and then exactly one event of the category, whose ids are array positions plus one of all it refers to |
| `Events.EventReachesSessions` | src/percetto.cc:382-414 | an event enters every session that is in the category's mask when it begins and stays in use, exactly once, and none outside the mask |
| `Events.EventIsDelivered` | src/percetto.cc:372-414 | the two together, from the call of TraceTrackEvent to the packets in the current sequence of every such session; a sequence that is new gets the interning packet |
| `Events.ResetIsAnswered` | src/percetto.cc:383-384 | after a session's incremental state is cleared, the next event of a thread in its sequence comes after an interning packet with all categories published by then |
| `UnresolvedIids.EventsLeftUnresolved` | src/percetto.cc:395-423 | a complete run with two unresolved events: a child that was never registered, and one registered after the interning packet |
| `Tracks.UuidsDistinct` | src/percetto.cc:82-163 | process, thread and custom track uuids are pairwise distinct |
| `Tracks.ThreadUuidIs` | src/percetto.cc:160-163 | the uuid of a thread's own track XOR the process uuid is the thread id |
| `Tracks.InvAlways` | src/percetto.cc:700-719 | in every reachable state the track array is a prefix without repeats, visible tracks have their slot's uuid, and refused ones have the last slot's |
| `Tracks.PublishedUuidIsFinal` | src/percetto.cc:703-714 | from the instant a track is visible in slot i its uuid XOR the process uuid is 0x1_0000_0000 + i, for ever |
| `Tracks.ReadersDescribePrefix` | src/percetto.cc:543-562 | a finished reader has described every track visible when it began, in order, under the right uuids |
| `Tracks.OnlyRefusedTracksCollide` | src/percetto.cc:707-718 | two tracks whose registrations are over share a uuid if and only if both were refused, or one was and the other is in the last slot |
| `TrackProgress.EndsAfterItsOwnSteps` | src/percetto.cc:700-719 | a registration, and a description of all tracks, is over after at most 66 steps of its own, whatever others do |
| `TrackProgress.CanFinish` | src/percetto.cc:700-719 | it can always get there by its own steps alone |
| `TrackProgress.RegistrationEnds` | src/percetto.cc:700-719 | when a registration returns, the track is in a slot and has that slot's uuid, or all 32 slots hold other tracks and it has the uuid of slot 31 |
| `RefusedTracks.RefusedTracksCollide` | src/percetto.cc:700-719 | a complete run of 34 registrations after which three tracks share a uuid |
| `PercettoLibrary.Percetto.constructor` | src/percetto.cc:64-90 | the library starts with nothing registered |
| `PercettoLibrary.InOr` | src/percetto.cc:322-327 | the OR over a group has a session's bit if and only if one of its children has it |
| `PercettoLibrary.Percetto.UpdateGroupCategory` | src/percetto.cc:314-329 | stores the OR of the children's masks in the group of a filled slot and changes nothing else; reports an empty slot |
| `PercettoLibrary.Percetto.UpdateGroupCategories` | src/percetto.cc:333-341 | makes all groups exact although it stops at the first empty slot |
| `PercettoLibrary.Percetto.OnSetup` | src/percetto.cc:267-291 | adds the session's bit to exactly the named categories for which the most specific rule of its configuration says so, and leaves all groups exact; a configuration that does not parse changes nothing |
| `PercettoLibrary.Percetto.OnStop` | src/percetto.cc:295-302 | removes the session's bit from every category, keeps all others, and leaves all groups exact |
| `PercettoLibrary.Percetto.AddGroupCategory` | src/percetto.cc:589-604 | appends the group, or returns -1 exactly when the array is full |
| `PercettoLibrary.Percetto.RegisterGroupCategory` | src/percetto.cc:688-697 | a registered group is exact at once, a refused one stays empty, and exact groups stay exact |
| `PercettoLibrary.Percetto.StoreCategories` | src/percetto.cc:662-676 | the leading categories of the list are numbered and published together until the array is full; the others are dropped untouched |
| `PercettoLibrary.Percetto.AddGroups` | src/percetto.cc:678-681 | the rest of the list goes into the group array for as long as it has room |
| `PercettoLibrary.Percetto.AddObjects` | src/percetto.cc:662-681 | afterwards all groups are exact if and only if they were before and the added ones have no active children |
| `PercettoLibrary.Percetto.InitWithArgs` | src/percetto.cc:620-685 | return codes, the initialised flag, the process uuid, both arrays and the iids, for first and later calls; a clock error changes nothing |
| `PercettoLibrary.Percetto.RegisterTrack` | src/percetto.cc:700-719 | the track gets the first empty slot i and a uuid that XOR the process uuid is 0x1_0000_0000 + i; a refused one is left with that of slot 31 |
| `AtraceMemo.ChosenExactly` | src/percetto-atrace.c:138-149 | a list is the one the loop collects if and only if it is the first four valid tag bits in ascending order, and it is non-empty exactly when a valid bit is set |
| `AtraceMemo.MemoStable` | src/percetto-atrace.c:118-185 | over every run of calls, equal tags give the same category, table-full and failed-init outcomes included, and the same group is given only for equal tags |
| `AtraceMemo.CountersStable` | src/percetto-atrace.c:187-215 | the same for counters: equal names share one track, different names never do, refusals are final |
| `AtraceMemo.NeverExactlyWhen` | src/percetto-atrace.c:120-169 | a call gives the never-enabled category exactly when the first call's init failed, none of the 28 valid bits is set, or the word needs a group and the 32 entries of the table were taken before it first came |
| `AtraceMemo.StatusIsFirstOutcome` | src/percetto-atrace.c:104-116 | after any calls the tables are usable if and only if there was a call and the first one's init succeeded |
| `AtraceMemo.StaticExactlyWhen` | src/percetto-atrace.c:158-161 | a call gives static category b exactly when init succeeded and b is the only valid tag |
| `AtraceMemo.RefusedExactlyWhen` | src/percetto-atrace.c:187-215 | a counter gets no track exactly when init failed or 32 other names had come before its own |
| `AtraceMemo.TablesAlwaysOk` | src/percetto-atrace.c:126-178 | over every run keys are distinct, within capacity, and stand for groups of at least two categories |
| `AtraceLibrary.Atrace.AtraceInit` | src/percetto-atrace.c:104-116 | runs percetto_init with the static categories the first time only, which publishes as many of them as fit; the status is then Ok if and only if the clock and the registration worked, and stays |
| `AtraceLibrary.Atrace.ChooseGroup` | src/percetto-atrace.c:134-149 | the loop with its early exit collects the static categories of the chosen bits |
| `AtraceLibrary.Atrace.FindEntry` | src/percetto-atrace.c:126-132 | finds the first entry with equal tags, or that there is none |
| `AtraceLibrary.Atrace.NewEntry` | src/percetto-atrace.c:171-182 | appends an entry for the tags and registers its group, which percetto accepts exactly when it has room; exact groups stay exact |
| `AtraceLibrary.Atrace.CategoryLocked` | src/percetto-atrace.c:118-185 | gives the object that the memo tables say, takes the tables to their next value, and registers a group exactly when it makes an entry |
| `AtraceLibrary.Atrace.EntryGroups` | src/percetto-atrace.c:172-177 | in every valid state the group of entry j is the first four valid bits of its tags in ascending order, and null beyond them |
| `AtraceLibrary.Atrace.NewTrack` | src/percetto-atrace.c:205-212 | appends a track for the name and registers it: it takes an empty slot of percetto, or all are taken and none changes |
| `AtraceLibrary.Atrace.CounterLocked` | src/percetto-atrace.c:187-215 | gives the track that the memo tables say and takes the tables to their next value |
| `AtraceLibrary.Atrace.CreateCategory` | src/percetto-atrace.c:217-224 | the call as a step of the memo tables; the call site then caches a settled answer |
| `AtraceLibrary.Atrace.CreateCategoryAndCounter` | src/percetto-atrace.c:226-240 | the same with a counter; a counter without a track leaves the site's track pointer alone |
| `AtraceLibrary.Atrace.LoadMask` | src/percetto-atrace.h:133-142 | ATRACE_ANY never changes a cached pointer, and with exact groups loads the OR of its chosen categories' masks, or an empty mask if the table or percetto had no room |
| `AtraceLibrary.Atrace.MaskHasMeaning` | src/percetto-atrace.c:120-184 | refinement: with exact groups, the mask of the category for tags is the OR of the masks of its first four valid bits if percetto accepted it and empty otherwise, so always a subset |
| `AtraceLibrary.Atrace.SessionStarts` | src/percetto.cc:267-291 | a session setup leaves the atrace tables valid and gives every cached category's mask that meaning |
| `AtraceLibrary.Atrace.SessionStops` | src/percetto.cc:295-302 | so does a stop |
| `AtraceLibrary.Atrace.PercettoKeepsAtrace` | src/percetto-atrace.c:54-60 | whatever else happens to percetto leaves the atrace tables valid as long as nobody else registers their objects |
| `CallSites.InvAlways` | src/percetto-atrace.c:217-240 | in every reachable state of any number of threads and call sites, mutex, status, caches and loaded values are consistent |
| `CallSites.InitsOnce` | src/percetto-atrace.c:104-116 | PERCETTO_INIT runs at most once, and no thread creates anything while the status says it has not |
| `CallSites.StatusIsOutcome` | src/percetto-atrace.c:109-115 | once decided, the status is Ok if and only if the one call of PERCETTO_INIT, which has been, succeeded |
| `CallSites.StepsLead` | src/percetto-atrace.c:95-116 | every step of a thread brings it nearer to its end unless it waits for the mutex, and nobody else moves it |
| `CallSites.NoDeadlock` | src/percetto-atrace.c:95-102 | from every reachable state every thread can get through, if need be after the thread in the mutex |
| `CallSites.PassageTraces` | src/percetto-atrace.h:133-157 | a thread that has reached a call site traces there before it is through |
| `CallSites.TracedPairIsAnswer` | src/percetto-atrace.h:133-157 | what it traces with is what the memo tables answer for its site |
| `CallSites.ReachingTraces` | src/percetto-atrace.h:133-157 | every reachable state in which a thread is free is continued by a run in which it reaches a given site and traces there with that answer |
| `CallSites.MutualExclusion` | src/percetto-atrace.c:95-102 | no two threads are inside the mutex |
| `CallSites.PublishedPairIsFinal` | src/percetto-atrace.h:144-157 | once a site's category pointer is published, the pair of pointers never changes |
| `CallSites.EveryoneSeesTheSamePair` | src/percetto-atrace.h:144-157 | whatever two threads load at one site, at any moments of a run: a non-null category, the same one, and the same track |
| `CallSites.EqualSitesShare` | src/percetto-atrace.c:126-198 | sites with equal tags get one category, sites with equal names one track, different names never share |
| `Scopes.WellBracketedExactlyWhenSteady` | src/percetto.h:495-500 | for any nesting, a session reads a well-bracketed stream, each end its innermost open scope's own, if and only if its bit is the same on entry and exit of every scope |
| `Scopes.RisingBeginsAreClosed` | src/percetto.h:408-412 | if bits only rise, every begin is followed by its own scope's end |
| `Scopes.OwnEvents` | src/percetto.h:495-500 | each executed scope writes its begin exactly once if the session's bit is set on entry and its end exactly once if it is set on exit, and neither otherwise |
| `Scopes.InsideItsScope` | src/percetto.h:495-500 | however a session's bit moves, what is executed inside a scope writes after the scope's begin and before its end |
| `Scopes.InOrder` | src/percetto.h:495-500 | scopes that do not nest write in the order in which they are entered |
| `Scopes.SurplusEnds` | src/percetto.h:408-412 | however masks move, ends exceed begins by the scopes entered clear and left set minus those entered set and left clear |
| `Scopes.Trace.TraceEvent` | src/percetto.h:495-500 | the macro and its cleanup extend every session's stream by what the specification says |
| `Scopes.Trace.Write` | src/percetto.cc:382-399 | an event reaches exactly the sessions in its mask |
| `Annotations.Link` | src/percetto.h:456-473 | after linking, each record points to its successor exactly when that one carries data |
| `Annotations.Walk` | src/percetto.cc:409-412 | walking ends and emits the first record and then the maximal run of records with data, in order |
| `Annotations.EventExtData` | src/percetto.h:433-476 | linking and walking together, on any ten records |
| `Annotations.MacroCallEmitsUserRecords` | src/percetto.h:660-665 | a macro call emits exactly the caller's records, up to ten |
| `Annotations.AllEmittedExactlyWhenFull` | src/percetto.h:456-473 | all records are emitted if and only if none but the first is empty |
| `Fnv.FnvHashAdd` | src/percetto.cc:100-108 | the loop computes the fold over the bytes, in 64-bit arithmetic |
| `Fnv.GetProcessUuid` | src/percetto.cc:114-132 | the uuid is the hash of the pid's bytes followed, if stat works, by the inode's |
| `FnvConstants.PublishedHashes` | src/percetto.cc:96-98 | the hashes of the empty text and of "a" are those published for 64-bit FNV-1 |
| `FnvConstants.XorIsBits` | src/percetto.cc:100-108 | the exclusive or of two bytes has exactly the bits in which they differ |
| `Fnv.FoldInPieces` | src/percetto.cc:110-112 | hashing in pieces is hashing the concatenation |
| `Fnv.FoldBijection` | src/percetto.cc:100-108 | every byte string acts as a bijection on the 64-bit states |
| `Fnv.SameBytesKeepApart` | src/percetto.cc:100-108 | different states stay different under the same bytes |
| `Fnv.OneByteNeverCollides` | src/percetto.cc:100-108 | inputs that differ in exactly one byte never collide |
| `Fnv.CollisionsComeFromPrefixes` | src/percetto.cc:100-108 | inputs with a common ending collide exactly when what precedes it does |
| `Masks.FetchOr` | src/percetto.cc:285-287 | fetch_or of an instance's bit adds its index to the set of bits |
| `Masks.FetchAnd` | src/percetto.cc:298-300 | fetch_and with its complement removes it |
| `Masks.OrIsUnion` | src/percetto.cc:322-327 | or-ing a child's word into a 32-bit sum is the union of the sets |
| `Masks.NonZeroHasSession` | src/percetto.h:495-500 | a mask word passes the macros' test if and only if its set is not empty |
| `Masks.TagTest` | src/percetto-atrace.c:141 | the test for one static category is membership of its bit |
| `Masks.ValidTags` | src/percetto-atrace.c:120-121 | the valid-mask test passes if and only if one of the 28 tag bits is set |
| `Masks.EqualWords` | src/percetto-atrace.c:128 | tag words are equal if and only if their sets of 64 bits are |

## Left out

- Perfetto SDK internals (`TraceWithInstances`, thread-local state, protobuf encoding, `Register`, `UpdateDescriptor`): environment steps and an abstract packet log stand for them.
- Weak memory: the effects of relaxed, acquire and release orders and of fences are not modelled; all atomics are sequentially consistent.
- /proc and environment reads, `stat`, `readlink`, thread names, error messages: their outcomes are parameters or absent.
- Clock selection and clock ids, cycle counters, clock snapshot packets: finite tables and foreign calls.
- Preprocessor machinery and the `NPERCETTO` variants: the expanded behaviour is modelled.
- The process, thread and clock packets of `DoIncrementalUpdate`: only the interning packet and the track descriptors carry state that events depend on.
- The encoding of annotation values by type, event names, counters and flow ids: one branch for each.
- The final flush packet of `OnStop`: it carries nothing.
- Events.EventIsWritten: the ids of one event are read in one step and kept by category object, so their order in the packet, and a child listed twice, are not modelled.
- The objects behind the static tables of `src/percetto-atrace.c` are allocated when an entry is made; the sources reserve them in advance.
- `s_category_never` has no ext record in the sources; in the model it is a category without name and children, which nothing reads.
- The unreachable test at `src/percetto-atrace.c:151-156`: `AtraceMemo.ChosenExactly` shows that no call gets there.
- Races.NoMissedUpdate: speaks about a session that starts no further callback before the registrant's update is over; one that does scans again itself. The mask itself is the subject of `Stores.NoMissedUpdateInMask`.
- Events.EventReachesSessions: rests on the SDK's part of `TraceWithInstances`, which enters each instance of the mask that is in use once and skips the others.
- Streams.EventsResolve: assumes that the SDK enters an instance only after its setup has begun to scan, with a state whose need_update is set.
