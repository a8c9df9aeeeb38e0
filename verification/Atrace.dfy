/** The objects of src/percetto-atrace.c and the call-site caches of src/percetto-atrace.h, when
    no two calls overlap. (Module CallSites has the interleavings.) */
module AtraceLibrary {
  import opened Common
  import opened Filter
  import opened PercettoLibrary
  import M = AtraceMemo

  /** The two static pointers of an ATRACE_COUNTER call site; ATRACE_ANY has only the first. */
  class Site {
    var cat: Category?
    var trk: Track?

    constructor ()
      ensures cat == null && trk == null
    {
      cat, trk := null, null;
    }
  }

  class Atrace {
    const percetto: Percetto
    /** g_percetto_categories, in the order of the tag bits. */
    const statics: seq<Category>
    /** s_category_never. */
    const never: Category
    var status: M.Status
    const tags: array<M.TagWord>
    const categories: array<Category?>
    var count: nat
    const tracks: array<Track?>
    var trackCount: nat
    /** The group categories and counter tracks handed out so far. */
    ghost var entries: seq<Category>
    ghost var counters: seq<Track>
    /** The value of the tables. */
    ghost var memo: M.Tables

    ghost predicate Shape()
      reads this`status, this`count, this`trackCount, this`entries, this`counters, this`memo
      reads tags, categories, tracks
    {
      && tags.Length == MAX_GROUP_CATEGORIES && categories.Length == MAX_GROUP_CATEGORIES
      && tracks.Length == MAX_TRACKS && |statics| == M.STATIC_COUNT
      && count == |entries| <= MAX_GROUP_CATEGORIES && trackCount == |counters| <= MAX_TRACKS
      && memo.status == status && |memo.tags| == |entries| && |memo.names| == |counters|
      && (forall i :: 0 <= i < |entries| ==> categories[i] == entries[i] && tags[i] == memo.tags[i])
      && (forall i :: 0 <= i < |counters| ==> tracks[i] == counters[i] && counters[i].name == memo.names[i])
      && categories != percetto.categories && categories != percetto.groups && tracks != percetto.tracks
    }

    /** The object that an answer of the tables stands for. */
    ghost function Object(found: M.Found): Category
      requires |statics| == M.STATIC_COUNT
      requires found.Static? ==> found.i < M.STATIC_COUNT
      requires found.Entry? ==> found.j < |entries|
      reads this`entries
    {
      match found
      case Never => never
      case Static(i) => statics[i]
      case Entry(j) => entries[j]
    }

    /** The static category at position p of the group of w, null beyond its end. */
    ghost function Child(w: M.TagWord, p: nat): Category?
      requires |statics| == M.STATIC_COUNT
    {
      if p < |M.Chosen(w)| then statics[M.Chosen(w)[p]] else null
    }

    ghost function GroupOf(w: M.TagWord): Children
      requires |statics| == M.STATIC_COUNT
    {
      [Child(w, 0), Child(w, 1), Child(w, 2), Child(w, 3)]
    }

    ghost predicate StaticsOk()
      reads percetto`grps
    {
      && (forall c :: c in statics ==> c.name.Some? && ChildrenNamed(c) && c !in percetto.grps && c != never)
      && (forall i, j :: 0 <= i < j < |statics| ==> statics[i] != statics[j])
    }

    /** Percetto enables a group only if it has accepted it. */
    ghost predicate Unaccepted(c: Category)
      reads percetto`grps, c`sessions
    {
      c !in percetto.grps && c.sessions == {}
    }

    /** The group object for a tag word. */
    ghost predicate IsEntry(c: Category, w: M.TagWord)
      requires |statics| == M.STATIC_COUNT
      reads percetto`grps, c`sessions
    {
      c.name.None? && c != never && c.group == GroupOf(w) && (c in percetto.grps || Unaccepted(c))
    }

    ghost predicate EntriesOk()
      requires Shape()
      reads this`status, this`count, this`trackCount, this`entries, this`counters, this`memo
      reads tags, categories, tracks, percetto`grps, entries`sessions
    {
      forall i :: 0 <= i < |entries| ==> IsEntry(entries[i], memo.tags[i])
    }

    ghost predicate Consistent()
      reads this`status, this`count, this`trackCount, this`entries, this`counters, this`memo
      reads tags, categories, tracks, never`sessions, entries`sessions
      reads percetto`categoryCount, percetto`cats, percetto`grps, percetto.categories, percetto.groups, percetto.tracks
      reads percetto.cats`nameIid, percetto.grps`nameIid, percetto.grps`sessions
    {
      && Shape() && percetto.Valid() && percetto.TracksCompact()
      && M.TablesOk(memo)
      && StaticsOk()
      && never.name.None? && Unaccepted(never)
      && EntriesOk()
    }

    ghost predicate Valid()
      reads this`status, this`count, this`trackCount, this`entries, this`counters, this`memo
      reads tags, categories, tracks, never`sessions, entries`sessions
      reads statics`sessions, statics`nameIid
      reads percetto`categoryCount, percetto`cats, percetto`grps, percetto.categories, percetto.groups, percetto.tracks
      reads percetto.cats`nameIid, percetto.grps`nameIid, percetto.grps`sessions
    {
      Consistent() && (status == M.NotStarted ==> percetto.AllUnregistered(statics))
    }

    constructor (percetto: Percetto, statics: seq<Category>, never: Category)
      requires percetto.Valid() && percetto.TracksCompact() && percetto.AllUnregistered(statics)
      requires |statics| == M.STATIC_COUNT && Distinct(statics)
      requires forall c :: c in statics ==> c.name.Some?
      requires never.name.None? && never !in statics && never !in percetto.grps && never.sessions == {}
      ensures Valid() && status == M.NotStarted
      ensures this.percetto == percetto && this.statics == statics && this.never == never
      ensures fresh(tags) && fresh(categories) && fresh(tracks) && entries == [] && counters == []
    {
      this.percetto, this.statics, this.never := percetto, statics, never;
      status, count, trackCount := M.NotStarted, 0, 0;
      tags := new M.TagWord[MAX_GROUP_CATEGORIES](_ => {});
      categories := new Category?[MAX_GROUP_CATEGORIES](_ => null);
      tracks := new Track?[MAX_TRACKS](_ => null);
      entries, counters, memo := [], [], M.Tables(M.NotStarted, [], []);
    }

    /** Nothing that the tables are about has changed. */
    twostate lemma Undisturbed()
      requires old(Valid())
      requires unchanged(this) && unchanged(tags) && unchanged(categories) && unchanged(tracks)
      requires unchanged(percetto) && unchanged(percetto.categories) && unchanged(percetto.groups)
      requires unchanged(percetto.tracks) && unchanged(never)
      requires forall c :: c in entries || c in statics ==> c.sessions == old(c.sessions) && c.nameIid == old(c.nameIid)
      requires forall c :: c in percetto.cats || c in percetto.grps ==>
        c.sessions == old(c.sessions) && c.nameIid == old(c.nameIid)
      ensures Valid()
    {
    }

    // -------------------------------------------------------------- atrace_init

    /** What PERCETTO_INIT gives: it fails only when it is the first init of the process. */
    static predicate InitSucceeds(isInitialized: bool, clockOk: bool, registerOk: bool) {
      isInitialized || (clockOk && registerOk)
    }

    lemma StaticsLead(list: seq<Category>)
      requires forall c :: c in list ==> c.name.Some?
      ensures Percetto.LeadingCategories(list) == |list|
    {
    }

    /** As many static categories as there is room for beside the ones already published. */
    ghost function Fitting(published: nat): seq<Category>
      requires published <= MAX_CATEGORIES
    {
      statics[..Percetto.Min(|statics|, MAX_CATEGORIES - published)]
    }

    /** New categories in percetto do not concern the tables. */
    twostate lemma CategoriesAdded()
      requires old(Consistent()) && percetto.Valid() && percetto.grps == old(percetto.grps)
      requires unchanged(this) && unchanged(tags) && unchanged(categories) && unchanged(tracks)
      requires unchanged(percetto.tracks) && never.sessions == old(never.sessions)
      requires forall e :: e in entries ==> e.sessions == old(e.sessions)
      ensures Consistent()
    {
    }

    /** PERCETTO_INIT with the static categories. */
    method PercettoInit(clockOk: bool, uuid: bv64, registerOk: bool) returns (ret: int)
      requires Consistent() && percetto.AllUnregistered(statics)
      modifies percetto, percetto.categories, percetto.groups, statics`nameIid
      ensures Consistent()
      ensures 0 <= ret <==> InitSucceeds(old(percetto.isInitialized), clockOk, registerOk)
      ensures percetto.grps == old(percetto.grps)
      ensures percetto.cats == if !old(percetto.isInitialized) && !clockOk then old(percetto.cats)
                               else old(percetto.cats) + Fitting(|old(percetto.cats)|)
      ensures percetto.AllExact() <==> old(percetto.AllExact())
    {
      StaticsLead(statics);
      ghost var added: seq<Category>;
      ret, added := percetto.InitWithArgs(statics, clockOk, uuid, registerOk);
      assert statics[|statics|..] == [] && added == [];
      CategoriesAdded();
    }

    /** The status changes once, while the tables are empty. */
    twostate lemma StatusChanged()
      requires old(Consistent()) && old(status) == M.NotStarted && status != M.NotStarted
      requires memo == old(memo).(status := status)
      requires unchanged(this`count) && unchanged(this`trackCount)
      requires unchanged(this`entries) && unchanged(this`counters)
      requires unchanged(tags) && unchanged(categories) && unchanged(tracks)
      requires unchanged(percetto) && unchanged(percetto.categories) && unchanged(percetto.groups)
      requires unchanged(percetto.tracks) && unchanged(never)
      requires forall c :: c in percetto.cats || c in percetto.grps ==>
        c.sessions == old(c.sessions) && c.nameIid == old(c.nameIid)
      ensures Valid()
    {
    }

    /** Initialises percetto once, and remembers for good whether that worked. */
    method AtraceInit(clockOk: bool, uuid: bv64, registerOk: bool)
      requires Valid()
      modifies this`status, this`memo, percetto, percetto.categories, percetto.groups, statics`nameIid
      ensures Valid()
      ensures memo == M.Started(old(memo), InitSucceeds(old(percetto.isInitialized), clockOk, registerOk))
      ensures status == if old(status) != M.NotStarted then old(status)
                        else if old(percetto.isInitialized) || (clockOk && registerOk) then M.Ok else M.Error
      ensures percetto.grps == old(percetto.grps)
      ensures percetto.cats ==
              if old(status) != M.NotStarted || (!old(percetto.isInitialized) && !clockOk) then old(percetto.cats)
              else old(percetto.cats) + Fitting(|old(percetto.cats)|)
      ensures percetto.AllExact() <==> old(percetto.AllExact())
    {
      if status != M.NotStarted {
        return;
      }
      var ret := PercettoInit(clockOk, uuid, registerOk);
      label inited:
      status := if ret < 0 then M.Error else M.Ok;
      memo := memo.(status := status);
      StatusChanged@inited();
      percetto.SameExactness@inited();
    }

    /** The check that precedes every creation. */
    method InitIfNeeded(clockOk: bool, uuid: bv64, registerOk: bool)
      requires Valid()
      modifies this`status, this`memo, percetto, percetto.categories, percetto.groups, statics`nameIid
      ensures Valid() && status != M.NotStarted
      ensures memo == M.Started(old(memo), InitSucceeds(old(percetto.isInitialized), clockOk, registerOk))
      ensures percetto.grps == old(percetto.grps)
      ensures percetto.AllExact() <==> old(percetto.AllExact())
    {
      if status == M.NotStarted {
        AtraceInit(clockOk, uuid, registerOk);
      }
    }

    // -------------------------------------------------------------- atrace_create_category_locked

    /** The static categories of some tag bits. */
    ghost predicate Picks(group: seq<Category>, bits: seq<nat>) {
      |group| == |bits| && forall p :: 0 <= p < |bits| ==> bits[p] < |statics| && group[p] == statics[bits[p]]
    }

    lemma PicksNext(group: seq<Category>, bits: seq<nat>, i: nat)
      requires Picks(group, bits) && i < |statics|
      ensures Picks(group + [statics[i]], bits + [i])
    {
    }

    /** The loop over the static categories, which stops at the fifth one that is chosen. */
    method ChooseGroup(w: M.TagWord) returns (group: seq<Category>)
      requires |statics| == M.STATIC_COUNT
      ensures Picks(group, M.Chosen(w))
    {
      group := [];
      ghost var chosen: seq<nat> := [];
      var i := 0;
      while i < |statics|
        invariant 0 <= i <= |statics| && M.Reached(w, i, chosen) && Picks(group, chosen)
      {
        if i in w && |group| == MAX_GROUP_SIZE {
          break;
        }
        M.ReachedNext(w, i, chosen);
        if i in w {
          PicksNext(group, chosen, i);
          group, chosen := group + [statics[i]], chosen + [i];
        }
        i := i + 1;
      }
      M.ReachedEnd(w, i, chosen);
    }

    /** Writes beyond the end of the table. */
    method WriteEntry(w: M.TagWord, category: Category)
      requires Valid() && count < MAX_GROUP_CATEGORIES
      modifies tags, categories
      ensures Valid() && categories[count] == category && tags[count] == w
    {
      categories[count] := category;
      tags[count] := w;
    }

    /** Appends a table entry that percetto does not know yet. */
    method AddEntry(w: M.TagWord, category: Category)
      requires Valid() && status == M.Ok && w !in memo.tags && count < MAX_GROUP_CATEGORIES
      requires IsEntry(category, w) && |M.Chosen(w)| >= 2
      modifies this`count, this`entries, this`memo, tags, categories
      ensures Valid()
      ensures entries == old(entries) + [category] && counters == old(counters)
      ensures memo == old(memo).(tags := old(memo).tags + [w])
      ensures old(percetto.AllExact()) ==> percetto.AllExact()
    {
      WriteEntry(w, category);
      CountEntry(w, category);
    }

    /** Makes what was written beyond the end the last entry. */
    method CountEntry(w: M.TagWord, category: Category)
      requires Valid() && status == M.Ok && w !in memo.tags && count < MAX_GROUP_CATEGORIES
      requires IsEntry(category, w) && |M.Chosen(w)| >= 2 && categories[count] == category && tags[count] == w
      modifies this`count, this`entries, this`memo
      ensures Valid()
      ensures entries == old(entries) + [category] && counters == old(counters)
      ensures memo == old(memo).(tags := old(memo).tags + [w])
    {
      M.NewKeyKeepsTables(memo, w);
      count := count + 1;
      entries := entries + [category];
      memo := memo.(tags := memo.tags + [w]);
    }

    /** The group object for a tag word, with null in the places that are left. */
    method NewGroup(w: M.TagWord, group: seq<Category>) returns (category: Category)
      requires Shape() && 2 <= |group| && Picks(group, M.Chosen(w))
      ensures fresh(category) && category.name.None? && category.group == GroupOf(w)
      ensures category.sessions == {} && category.nameIid == 0
      ensures old(percetto.AllExact()) ==> percetto.AllExact()
    {
      category := new Category(None, [None, None, None, None], [
        group[0], group[1],
        if 2 < |group| then group[2] else null,
        if 3 < |group| then group[3] else null]);
    }

    /** Whatever else happens to percetto, its own tables stay right as long as nobody registers
        its objects. */
    twostate lemma PercettoKeepsAtrace()
      requires old(Valid()) && Shape() && memo == old(memo)
      requires entries == old(entries)
      requires percetto.Valid() && percetto.TracksCompact()
      requires forall c :: c in statics || c == never ==> c !in percetto.grps
      requires never.sessions == old(never.sessions)
      requires forall e :: e in entries ==> e in percetto.grps || (old(Unaccepted(e)) && e.sessions == old(e.sessions))
      requires status == M.NotStarted ==> percetto.AllUnregistered(statics)
      ensures Valid()
    {
    }

    /** The registered groups after the registration of another one. */
    static ghost function WithGroup(grps: seq<Category>, category: Category): seq<Category> {
      if |grps| < MAX_GROUP_CATEGORIES then grps + [category] else grps
    }

    /** Registers the newest entry, which percetto may or may not accept. */
    method RegisterEntry(category: Category)
      requires Valid() && status == M.Ok && category in entries && percetto.Unregistered(category)
      modifies percetto`grps, percetto.groups, percetto.grps`sessions, category`sessions
      ensures Valid() && memo == old(memo)
      ensures percetto.grps == WithGroup(old(percetto.grps), category)
      ensures old(percetto.AllExact()) ==> percetto.AllExact()
    {
      var _ := percetto.RegisterGroupCategory(category);
      PercettoKeepsAtrace();
    }

    /** Adds an entry and registers it. */
    method AppendEntry(w: M.TagWord, category: Category)
      requires Valid() && status == M.Ok && w !in memo.tags && count < MAX_GROUP_CATEGORIES
      requires IsEntry(category, w) && |M.Chosen(w)| >= 2 && percetto.Unregistered(category)
      modifies this`count, this`entries, this`memo, tags, categories
      modifies percetto`grps, percetto.groups, percetto.grps`sessions, category`sessions
      ensures Valid()
      ensures entries == old(entries) + [category] && counters == old(counters)
      ensures memo == old(memo).(tags := old(memo).tags + [w])
      ensures percetto.grps == WithGroup(old(percetto.grps), category)
      ensures old(percetto.AllExact()) ==> percetto.AllExact()
    {
      AddEntry(w, category);
      RegisterEntry(category);
    }

    /** The next table entry, registered with percetto. */
    method NewEntry(w: M.TagWord, group: seq<Category>) returns (category: Category)
      requires Valid() && status == M.Ok && w !in memo.tags && count < MAX_GROUP_CATEGORIES
      requires 2 <= |group| && Picks(group, M.Chosen(w))
      modifies this`count, this`entries, this`memo, tags, categories
      modifies percetto`grps, percetto.groups, percetto.grps`sessions
      ensures Valid()
      ensures entries == old(entries) + [category] && counters == old(counters)
      ensures memo == old(memo).(tags := old(memo).tags + [w])
      ensures percetto.grps == WithGroup(old(percetto.grps), category)
      ensures old(percetto.AllExact()) ==> percetto.AllExact()
    {
      category := NewGroup(w, group);
      Undisturbed();
      assert ChildrenNamed(category) && category !in percetto.grps && category !in percetto.cats;
      AppendEntry(w, category);
    }

    /** Looks a tag word up in the table. */
    method FindEntry(w: M.TagWord) returns (i: nat)
      requires Valid()
      ensures i <= count
      ensures i < count ==> w in memo.tags && M.IndexOf(memo.tags, w) == i
      ensures i == count ==> w !in memo.tags
      ensures Valid() && (old(percetto.AllExact()) ==> percetto.AllExact())
    {
      ghost var keys := memo.tags;
      i := 0;
      while i < count
        invariant 0 <= i <= count && w !in keys[..i]
      {
        if tags[i] == w {
          M.IndexOfIs(keys, w, i);
          return;
        }
        assert keys[..i + 1] == keys[..i] + [keys[i]];
        i := i + 1;
      }
      assert keys[..i] == keys;
    }

    /** The category for a tag word that has no table entry. */
    method CategoryNotFound(w: M.TagWord) returns (category: Category)
      requires Valid() && status == M.Ok && M.HasValidBit(w) && w !in memo.tags
      modifies this`count, this`entries, this`memo, tags, categories
      modifies percetto`grps, percetto.groups, percetto.grps`sessions
      ensures Valid()
      ensures memo == M.AfterCategory(old(memo), w)
      ensures var found := M.CategoryFor(old(memo), w);
              (found.Entry? ==> found.j < |entries|) && category == Object(found)
      ensures entries == old(entries) + if memo != old(memo) then [category] else []
      ensures counters == old(counters)
      ensures percetto.grps == if memo != old(memo) then WithGroup(old(percetto.grps), category) else old(percetto.grps)
      ensures old(percetto.AllExact()) ==> percetto.AllExact()
    {
      M.ChosenExactly(w, []);
      var group := ChooseGroup(w);
      Undisturbed();
      if |group| == 1 {
        category := group[0];
      } else if count == MAX_GROUP_CATEGORIES {
        category := never;
      } else {
        category := NewEntry(w, group);
      }
    }

    /** The category for a tag word with a valid bit, found or allocated. */
    method CategoryEnabled(w: M.TagWord) returns (category: Category)
      requires Valid() && status == M.Ok && M.HasValidBit(w)
      modifies this`count, this`entries, this`memo, tags, categories
      modifies percetto`grps, percetto.groups, percetto.grps`sessions
      ensures Valid()
      ensures memo == M.AfterCategory(old(memo), w)
      ensures var found := M.CategoryFor(old(memo), w);
              (found.Entry? ==> found.j < |entries|) && category == Object(found)
      ensures entries == old(entries) + if memo != old(memo) then [category] else []
      ensures counters == old(counters)
      ensures percetto.grps == if memo != old(memo) then WithGroup(old(percetto.grps), category) else old(percetto.grps)
      ensures old(percetto.AllExact()) ==> percetto.AllExact()
    {
      var i := FindEntry(w);
      if i < count {
        category := categories[i];
      } else {
        category := CategoryNotFound(w);
      }
    }

    /** The category for a tag word. */
    method CategoryLocked(w: M.TagWord) returns (category: Category)
      requires Valid()
      modifies this`count, this`entries, this`memo, tags, categories
      modifies percetto`grps, percetto.groups, percetto.grps`sessions
      ensures Valid()
      ensures memo == M.AfterCategory(old(memo), w)
      ensures var found := M.CategoryFor(old(memo), w);
              (found.Entry? ==> found.j < |entries|) && category == Object(found)
      ensures entries == old(entries) + if memo != old(memo) then [category] else []
      ensures counters == old(counters)
      ensures percetto.grps == if memo != old(memo) then WithGroup(old(percetto.grps), category) else old(percetto.grps)
      ensures old(percetto.AllExact()) ==> percetto.AllExact()
    {
      if status != M.Ok || !M.HasValidBit(w) {
        category := never;
      } else {
        category := CategoryEnabled(w);
      }
    }

    // -------------------------------------------------------------- atrace_create_counter_locked

    method FindTrack(name: Address) returns (i: nat)
      requires Valid()
      ensures i <= trackCount
      ensures i < trackCount ==> name in memo.names && M.IndexOf(memo.names, name) == i
      ensures i == trackCount ==> name !in memo.names
    {
      ghost var keys := memo.names;
      i := 0;
      while i < trackCount
        invariant 0 <= i <= trackCount && name !in keys[..i]
      {
        if tracks[i].name == name {
          M.IndexOfIs(keys, name, i);
          return;
        }
        assert keys[..i + 1] == keys[..i] + [keys[i]];
        i := i + 1;
      }
      assert keys[..i] == keys;
    }

    method AddTrack(name: Address) returns (track: Track)
      requires Valid() && status == M.Ok && name !in memo.names && trackCount < MAX_TRACKS
      modifies this`trackCount, this`counters, this`memo, tracks
      ensures Valid() && fresh(track)
      ensures counters == old(counters) + [track] && memo == old(memo).(names := old(memo).names + [name])
    {
      track := new Track(name);
      tracks[trackCount] := track;
      trackCount := trackCount + 1;
      counters := counters + [track];
      memo := memo.(names := memo.names + [name]);
    }

    /** The next track, registered with percetto. */
    method NewTrack(name: Address) returns (track: Track, ghost slot: int)
      requires Valid() && status == M.Ok && name !in memo.names && trackCount < MAX_TRACKS
      modifies this`trackCount, this`counters, this`memo, tracks, percetto.tracks
      ensures Valid()
      ensures counters == old(counters) + [track] && memo == old(memo).(names := old(memo).names + [name])
      ensures if 0 <= slot < 32
              then old(percetto.tracks[slot]) == null && percetto.tracks[..] == old(percetto.tracks[..])[slot := track]
              else percetto.tracks[..] == old(percetto.tracks[..]) && null !in percetto.tracks[..]
      ensures old(percetto.AllExact()) ==> percetto.AllExact()
    {
      track := AddTrack(name);
      var _, position := percetto.RegisterTrack(track);
      slot := position;
    }

    /** The track for a counter, null if there is none. */
    method CounterLocked(name: Address) returns (track: Track?)
      requires Valid()
      modifies this`trackCount, this`counters, this`memo, tracks, percetto.tracks
      ensures Valid()
      ensures memo == M.AfterTrack(old(memo), name) && old(counters) <= counters
      ensures var found := M.TrackFor(old(memo), name);
              if found.None? then track == null else found.value < |counters| && track == counters[found.value]
      ensures (old(percetto.AllExact()) ==> percetto.AllExact())
    {
      if status != M.Ok {
        return null;
      }
      var i := FindTrack(name);
      Undisturbed();
      if i < trackCount {
        return tracks[i];
      }
      if trackCount == MAX_TRACKS {
        return null;
      }
      ghost var slot: int;
      track, slot := NewTrack(name);
    }

    // -------------------------------------------------------------- the entry points

    /** What the cache of a call site holds: nothing, or the answer for its tag word, which is
        settled. */
    ghost predicate Caches(site: Site, w: M.TagWord)
      requires Valid()
      reads site`cat, this`status, this`count, this`trackCount, this`entries, this`counters, this`memo
      reads tags, categories, tracks, never`sessions, entries`sessions
      reads statics`sessions, statics`nameIid
      reads percetto`categoryCount, percetto`cats, percetto`grps, percetto.categories, percetto.groups, percetto.tracks
      reads percetto.cats`nameIid, percetto.grps`nameIid, percetto.grps`sessions
    {
      site.cat != null ==>
        var found := M.CategoryFor(memo, w);
        && M.CategoryFixed(memo, w, found)
        && site.cat == Object(found)
    }

    /** The category for a tag word, which is settled from now on. */
    method SettledCategory(w: M.TagWord) returns (category: Category)
      requires Valid() && status != M.NotStarted
      modifies this`count, this`entries, this`memo, tags, categories
      modifies percetto`grps, percetto.groups, percetto.grps`sessions
      ensures Valid() && memo == M.AfterCategory(old(memo), w)
      ensures var found := M.CategoryFor(memo, w);
              M.CategoryFixed(memo, w, found) && category == Object(found)
      ensures entries == old(entries) + if memo != old(memo) then [category] else []
      ensures counters == old(counters)
      ensures percetto.grps == if memo != old(memo) then WithGroup(old(percetto.grps), category) else old(percetto.grps)
      ensures old(percetto.AllExact()) ==> percetto.AllExact()
    {
      M.AskingFixes(memo, w);
      category := CategoryLocked(w);
    }

    /** Stores the category for a tag word in the cache of a call site. */
    method CreateCategoryLocked(site: Site, w: M.TagWord)
      requires Valid() && status != M.NotStarted
      modifies site`cat, this`count, this`entries, this`memo, tags, categories
      modifies percetto`grps, percetto.groups, percetto.grps`sessions
      ensures Valid() && memo == M.AfterCategory(old(memo), w)
      ensures site.cat != null && Caches(site, w)
      ensures entries == old(entries) + if memo != old(memo) then [site.cat] else []
      ensures counters == old(counters)
      ensures percetto.grps == if memo != old(memo) then WithGroup(old(percetto.grps), site.cat) else old(percetto.grps)
      ensures old(percetto.AllExact()) ==> percetto.AllExact()
    {
      var category := SettledCategory(w);
      label settled:
      site.cat := category;
      Undisturbed@settled();
    }

    /** Stores the track for a counter in the cache of a call site, or leaves the cache alone. */
    method CreateCounterLocked(site: Site, name: Address)
      requires Valid() && status != M.NotStarted
      modifies site`trk, this`trackCount, this`counters, this`memo, tracks, percetto.tracks
      ensures Valid() && memo == M.AfterTrack(old(memo), name)
      ensures old(counters) <= counters && (old(percetto.AllExact()) ==> percetto.AllExact())
      ensures var found := M.TrackFor(old(memo), name);
              if found.None? then site.trk == old(site.trk)
              else found.value < |counters| && site.trk == counters[found.value]
    {
      var track := CounterLocked(name);
      label found:
      if track != null {
        site.trk := track;
      }
      Undisturbed@found();
    }

    /** The counter first, then the category: a site with a category has its final track. */
    method CreateBothLocked(site: Site, w: M.TagWord, name: Address)
      requires Valid() && status != M.NotStarted
      modifies site, this`count, this`entries, this`memo, tags, categories
      modifies this`trackCount, this`counters, tracks, percetto.tracks
      modifies percetto`grps, percetto.groups, percetto.grps`sessions
      ensures Valid() && memo == M.AfterCategory(M.AfterTrack(old(memo), name), w)
      ensures var found := M.TrackFor(old(memo), name);
              if found.None? then site.trk == old(site.trk)
              else found.value < |counters| && site.trk == counters[found.value]
      ensures site.cat != null && Caches(site, w)
      ensures old(entries) <= entries && old(counters) <= counters && old(percetto.grps) <= percetto.grps
      ensures old(percetto.AllExact()) ==> percetto.AllExact()
    {
      CreateCounterLocked(site, name);
      CreateCategoryLocked(site, w);
    }

    /** atrace_create_category. */
    method CreateCategory(site: Site, w: M.TagWord, clockOk: bool, uuid: bv64, registerOk: bool)
      requires Valid()
      modifies site`cat, this`status, this`count, this`entries, this`memo, tags, categories
      modifies percetto, percetto.categories, percetto.groups, percetto.grps`sessions, statics`nameIid
      ensures Valid()
      ensures var initOk := InitSucceeds(old(percetto.isInitialized), clockOk, registerOk);
              memo == M.After(old(memo), M.CreateCategory(initOk, w))
      ensures site.cat != null && Caches(site, w)
      ensures old(entries) <= entries && old(percetto.grps) <= percetto.grps
      ensures old(percetto.AllExact()) ==> percetto.AllExact()
    {
      InitIfNeeded(clockOk, uuid, registerOk);
      CreateCategoryLocked(site, w);
    }

    /** atrace_create_category_and_counter. */
    method CreateCategoryAndCounter(site: Site, w: M.TagWord, name: Address,
                                    clockOk: bool, uuid: bv64, registerOk: bool)
      requires Valid()
      modifies site, this`status, this`count, this`entries, this`memo, tags, categories
      modifies this`trackCount, this`counters, tracks, percetto.tracks
      modifies percetto, percetto.categories, percetto.groups, percetto.grps`sessions, statics`nameIid
      ensures Valid()
      ensures var initOk := InitSucceeds(old(percetto.isInitialized), clockOk, registerOk);
              && memo == M.After(old(memo), M.CreateCategoryAndCounter(initOk, w, name))
              && var found := M.TrackFor(M.Started(old(memo), initOk), name);
                 if found.None? then site.trk == old(site.trk)
                 else found.value < |counters| && site.trk == counters[found.value]
      ensures site.cat != null && Caches(site, w)
      ensures old(entries) <= entries && old(counters) <= counters && old(percetto.grps) <= percetto.grps
      ensures old(percetto.AllExact()) ==> percetto.AllExact()
    {
      InitIfNeeded(clockOk, uuid, registerOk);
      CreateBothLocked(site, w, name);
    }

    /** ATRACE_ANY up to the mask that decides whether and where an event goes. */
    method LoadMask(site: Site, w: M.TagWord, clockOk: bool, uuid: bv64, registerOk: bool) returns (mask: Mask)
      requires Valid() && Caches(site, w)
      modifies site`cat, this`status, this`count, this`entries, this`memo, tags, categories
      modifies percetto, percetto.categories, percetto.groups, percetto.grps`sessions, statics`nameIid
      ensures Valid() && site.cat != null && Caches(site, w)
      ensures old(site.cat) != null ==> site.cat == old(site.cat)
      ensures mask == site.cat.sessions
      ensures old(percetto.AllExact()) ==> percetto.AllExact() && mask == Meaning(w)
    {
      if site.cat == null {
        CreateCategory(site, w, clockOk, uuid, registerOk);
      }
      mask := site.cat.sessions;
      if percetto.AllExact() {
        MaskHasMeaning(w);
      }
    }

    // -------------------------------------------------------------- what a mask means

    /** The sessions of the first four valid bits of w. */
    ghost function ChosenMask(w: M.TagWord): Mask
      requires |statics| == M.STATIC_COUNT
      reads statics`sessions
    {
      set k: Session, p | 0 <= p < |M.Chosen(w)| && k in statics[M.Chosen(w)[p]].sessions :: k
    }

    /** Percetto keeps the mask of what stands for w up to date. */
    ghost predicate Accepted(found: M.Found)
      reads this`entries, percetto`grps
    {
      found.Static? || (found.Entry? && found.j < |entries| && entries[found.j] in percetto.grps)
    }

    /** The sessions an event tagged w goes to: those of its chosen categories, unless the table
        or percetto had no room for it. */
    ghost function Meaning(w: M.TagWord): Mask
      requires Shape()
      reads this`status, this`count, this`trackCount, this`entries, this`counters, this`memo
      reads tags, categories, tracks, percetto`grps, statics`sessions
    {
      if Accepted(M.CategoryFor(memo, w)) then ChosenMask(w) else {}
    }

    /** The OR of a group's children is the sessions of the chosen categories. */
    lemma OrIsChosenMask(w: M.TagWord)
      requires |statics| == M.STATIC_COUNT
      ensures Or(GroupOf(w)) == ChosenMask(w)
    {
      var group := GroupOf(w);
      forall k: Session ensures k in Or(group) <==> k in ChosenMask(w) {
        InOr(group, k);
        if p :| 0 <= p < |M.Chosen(w)| && k in statics[M.Chosen(w)[p]].sessions {
          assert group[p] == statics[M.Chosen(w)[p]];
        }
      }
    }

    /** Refinement: while every group is exact, the mask of the category for w is the OR of its
        first four chosen categories, or empty if the table or percetto had no room for it. */
    lemma MaskHasMeaning(w: M.TagWord)
      requires Valid() && percetto.AllExact()
      requires M.CategoryFixed(memo, w, M.CategoryFor(memo, w))
      ensures Object(M.CategoryFor(memo, w)).sessions == Meaning(w) <= ChosenMask(w)
    {
      var found := M.CategoryFor(memo, w);
      match found
      case Never =>
      case Static(i) =>
        assert M.Chosen(w) == [i];
      case Entry(j) =>
        OrIsChosenMask(w);
        if entries[j] in percetto.grps { assert IsExact(entries[j]); }
    }

    /** The group of every entry: the categories of the first four valid bits of its tag word, in
        ascending order, and null in the places that are left. */
    lemma EntryGroups(j: nat, chosen: seq<nat>, p: nat)
      requires Valid() && j < |entries| && p < MAX_GROUP_SIZE
      requires M.FirstBits(chosen, memo.tags[j], 0, MAX_GROUP_SIZE)
      ensures 2 <= |chosen| <= 4
      ensures forall q :: 0 <= q < |chosen| ==> chosen[q] < M.STATIC_COUNT
      ensures entries[j].group[p] == if p < |chosen| then statics[chosen[p]] else null
    {
      M.ChosenExactly(memo.tags[j], chosen);
      assert IsEntry(entries[j], memo.tags[j]);
    }

    // -------------------------------------------------------------- sessions

    /** A session of a process that uses these tables is set up: afterwards the masks of all
        cached categories have their meaning. */
    method SessionStarts(k: Session, parsed: Option<Config>)
      requires Valid()
      modifies percetto.cats`sessions, percetto.grps`sessions
      ensures Valid() && percetto.cats == old(percetto.cats) && percetto.grps == old(percetto.grps)
      ensures parsed.Some? ==> percetto.AllExact()
      ensures parsed.Some? ==> forall w :: M.CategoryFixed(memo, w, M.CategoryFor(memo, w)) ==>
        Object(M.CategoryFor(memo, w)).sessions == Meaning(w)
    {
      percetto.OnSetup(k, parsed);
      PercettoKeepsAtrace();
      if parsed.Some? {
        MasksHaveMeaning();
      }
    }

    /** And the same when one stops. */
    method SessionStops(k: Session)
      requires Valid()
      modifies percetto.cats`sessions, percetto.grps`sessions
      ensures Valid() && percetto.cats == old(percetto.cats) && percetto.grps == old(percetto.grps)
      ensures percetto.AllExact()
      ensures forall w :: M.CategoryFixed(memo, w, M.CategoryFor(memo, w)) ==>
        Object(M.CategoryFor(memo, w)).sessions == Meaning(w)
    {
      percetto.OnStop(k);
      PercettoKeepsAtrace();
      MasksHaveMeaning();
    }

    lemma MasksHaveMeaning()
      requires Valid() && percetto.AllExact()
      ensures forall w :: M.CategoryFixed(memo, w, M.CategoryFor(memo, w)) ==>
        Object(M.CategoryFor(memo, w)).sessions == Meaning(w)
    {
      forall w | M.CategoryFixed(memo, w, M.CategoryFor(memo, w))
        ensures Object(M.CategoryFor(memo, w)).sessions == Meaning(w)
      {
        MaskHasMeaning(w);
      }
    }
  }
}
