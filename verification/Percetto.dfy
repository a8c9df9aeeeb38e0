/** The library object of src/percetto.cc, operation by operation, when no two of them overlap.
    (Module Machine has the interleavings.) */
module PercettoLibrary {
  import opened Common
  import opened Filter
  import T = Tracks

  /** An instance index; sums of masks are kept in 32 bits. */
  type Session = k: nat | k < MAX_SESSIONS

  /** The bits set in a session mask. */
  type Mask = set<Session>

  type Children = g: seq<Category?> | |g| == MAX_GROUP_SIZE witness [null, null, null, null]

  /** percetto_category with its ext record. */
  class Category {
    var sessions: Mask
    var nameIid: nat
    const name: Option<string>
    const tags: Tags
    const group: Children

    constructor (name: Option<string>, tags: Tags, group: Children)
      ensures this.name == name && this.tags == tags && this.group == group
      ensures sessions == {} && nameIid == 0
    {
      this.name, this.tags, this.group := name, tags, group;
      sessions, nameIid := {}, 0;
    }
  }

  /** percetto_track. */
  class Track {
    var uuid: bv64
    var parentUuid: bv64
    const name: Address

    constructor (name: Address)
      ensures this.name == name && uuid == 0 && parentUuid == 0
    {
      this.name := name;
      uuid, parentUuid := 0, 0;
    }
  }

  /** Named categories have no children, and the children of groups are named. */
  ghost predicate ChildrenNamed(c: Category) {
    forall i :: 0 <= i < MAX_GROUP_SIZE && c.group[i] != null ==> c.name.None? && c.group[i].name.Some?
  }

  /** The OR of the masks of some children. */
  ghost function Or(group: seq<Category?>): Mask
    reads group`sessions
  {
    if group == [] then {}
    else
      var last := group[|group|-1];
      Or(group[..|group|-1]) + if last == null then {} else last.sessions
  }

  /** An index is in it when some child has it. */
  lemma {:induction false} InOr(group: seq<Category?>, k: Session)
    ensures k in Or(group) <==> exists p :: 0 <= p < |group| && group[p] != null && k in group[p].sessions
    decreases |group|
  {
    if group != [] {
      var init := group[..|group|-1];
      InOr(init, k);
      if k in Or(init) {
        var p :| 0 <= p < |init| && init[p] != null && k in init[p].sessions;
        assert group[p] == init[p];
      }
    }
  }

  twostate lemma {:induction false} OrFrame(group: seq<Category?>)
    requires forall i :: 0 <= i < |group| && group[i] != null ==> group[i].sessions == old(group[i].sessions)
    ensures Or(group) == old(Or(group))
    decreases |group|
  {
    if group != [] {
      OrFrame(group[..|group|-1]);
    }
  }

  /** A group's mask is the OR of its children's masks. */
  ghost predicate IsExact(g: Category)
    reads g`sessions, g.group`sessions
  {
    g.sessions == Or(g.group)
  }

  predicate Wants(c: Category, parsed: Option<Config>) {
    Wanted(c.name, c.tags, parsed)
  }

  /** Which is what the most specific rule of the configuration says. */
  lemma WantsIs(c: Category, parsed: Option<Config>)
    ensures Wants(c, parsed) <==>
      parsed.Some? && c.name.Some? && MostSpecificRule(c.name.value, c.tags, parsed.value)
  {
    if parsed.Some? && c.name.Some? {
      FilterRefinement(c.name.value, c.tags, parsed.value);
    }
  }

  class Percetto {
    const categories: array<Category?>
    const groups: array<Category?>
    const tracks: array<Track?>
    var categoryCount: nat
    var isInitialized: bool
    var processUuid: bv64
    /** The published categories and the registered groups. */
    ghost var cats: seq<Category>
    ghost var grps: seq<Category>

    ghost predicate Shape()
      reads this`categoryCount, this`cats, this`grps, categories, groups
    {
      && categories.Length == MAX_CATEGORIES && groups.Length == MAX_GROUP_CATEGORIES
      && tracks.Length == MAX_TRACKS && categories != groups
      && |cats| == categoryCount <= MAX_CATEGORIES && |grps| <= MAX_GROUP_CATEGORIES
      && (forall i :: 0 <= i < |cats| ==> categories[i] == cats[i])
      && (forall i :: 0 <= i < MAX_GROUP_CATEGORIES ==> groups[i] == if i < |grps| then grps[i] else null)
    }

    ghost predicate Registered()
      reads this`categoryCount, this`cats, this`grps, categories, groups, cats`nameIid, grps`nameIid
    {
      && Shape()
      && Distinct(cats) && Distinct(grps)
      && (forall c :: c in cats ==> c !in grps && c.name.Some?)
      && (forall i :: 0 <= i < |cats| ==> cats[i].nameIid == i + 1)
      && (forall g :: g in grps ==> ChildrenNamed(g) && g.nameIid == 0)
    }

    ghost predicate NamedGroupsEmpty()
      reads this`grps, grps`sessions
    {
      forall g :: g in grps && g.name.Some? ==> g.sessions == {}
    }

    ghost predicate Valid()
      reads this`categoryCount, this`cats, this`grps, categories, groups, cats`nameIid, grps`nameIid, grps`sessions
    {
      Registered() && NamedGroupsEmpty()
    }

    static ghost function ChildrenOf(list: seq<Category>): set<Category?> {
      set g, i | g in list && 0 <= i < MAX_GROUP_SIZE :: g.group[i]
    }

    ghost predicate AllExact()
      reads this`grps, grps`sessions, ChildrenOf(grps)`sessions
    {
      forall g {:trigger IsExact(g)} :: g in grps ==> IsExact(g)
    }

    constructor ()
      ensures Valid() && cats == [] && grps == [] && !isInitialized && processUuid == 0
      ensures fresh(categories) && fresh(groups) && fresh(tracks)
      ensures forall i :: 0 <= i < tracks.Length ==> tracks[i] == null
    {
      categories := new Category?[MAX_CATEGORIES](_ => null);
      groups := new Category?[MAX_GROUP_CATEGORIES](_ => null);
      tracks := new Track?[MAX_TRACKS](_ => null);
      categoryCount, isInitialized, processUuid := 0, false, 0;
      cats, grps := [], [];
    }

    // -------------------------------------------------------------- group updates

    /** Updates one group; false if the slot is empty, which is the end of the array. */
    method UpdateGroupCategory(i: nat) returns (filled: bool)
      requires Valid() && i < MAX_GROUP_CATEGORIES
      modifies grps`sessions
      ensures Valid()
      ensures filled <==> i < |grps|
      ensures filled ==> grps[i].sessions == old(Or(grps[i].group))
      ensures forall j :: 0 <= j < |grps| && j != i ==> grps[j].sessions == old(grps[j].sessions)
      ensures forall g :: g in grps && g.name.Some? ==> g.sessions == old(g.sessions)
    {
      var g := groups[i];
      if g == null {
        return false;
      }
      var newSessions: Mask := {};
      var j := 0;
      while j < |g.group|
        invariant 0 <= j <= |g.group|
        invariant newSessions == Or(g.group[..j])
      {
        assert g.group[..j + 1][..j] == g.group[..j];
        var d := g.group[j];
        if d != null {
          newSessions := newSessions + d.sessions;
        }
        j := j + 1;
      }
      assert g.group[..j] == g.group;
      NamedHasNoBits(g);
      g.sessions := newSessions;
      filled := true;
    }

    /** A named object has no children, so an update stores an empty mask in it. */
    lemma NamedHasNoBits(g: Category)
      requires ChildrenNamed(g)
      ensures g.name.Some? ==> Or(g.group) == {}
    {
      if g.name.Some? {
        NullsHaveNoBits(g.group);
      }
    }

    lemma {:induction false} NullsHaveNoBits(group: seq<Category?>)
      requires forall i :: 0 <= i < |group| ==> group[i] == null
      ensures Or(group) == {}
      decreases |group|
    {
      if group != [] {
        NullsHaveNoBits(group[..|group|-1]);
      }
    }

    /** Updates the groups up to the first empty slot, which are all of them. */
    method UpdateGroupCategories()
      requires Valid()
      modifies grps`sessions
      ensures Valid() && AllExact()
      ensures forall g :: g in grps && g.name.Some? ==> g.sessions == old(g.sessions)
    {
      var i := 0;
      while i < groups.Length
        invariant 0 <= i <= groups.Length && i <= |grps|
        invariant Valid()
        invariant forall g :: g in grps && g.name.Some? ==> g.sessions == old(g.sessions)
        invariant forall j :: 0 <= j < i ==> IsExact(grps[j])
      {
        label before:
        var filled := UpdateGroupCategory(i);
        if !filled {
          return;
        }
        forall j | 0 <= j <= i ensures IsExact(grps[j]) {
          assert ChildrenNamed(grps[j]);
          OrFrame@before(grps[j].group);
        }
        i := i + 1;
      }
    }

    // -------------------------------------------------------------- sessions

    /** The masks of categories may change freely. */
    twostate lemma OnlyMasksChanged()
      requires old(Valid())
      requires unchanged(this`categoryCount) && unchanged(this`cats) && unchanged(this`grps)
      requires unchanged(categories) && unchanged(groups)
      requires forall c :: c in cats || c in grps ==> c.nameIid == old(c.nameIid)
      requires forall g :: g in grps ==> g.sessions == old(g.sessions)
      ensures Valid()
    {
    }

    /** The loop of OnSetup over the registered categories. */
    method MarkCategories(k: Session, parsed: Option<Config>)
      requires Valid()
      modifies cats`sessions
      ensures Valid()
      ensures forall c :: c in cats ==> c.sessions == old(c.sessions) + if Wants(c, parsed) then {k} else {}
      ensures forall g :: g in grps ==> g.sessions == old(g.sessions)
    {
      var i := 0;
      while i < categoryCount
        invariant 0 <= i <= |cats|
        invariant forall j :: 0 <= j < i ==>
          cats[j].sessions == old(cats[j].sessions) + if Wants(cats[j], parsed) then {k} else {}
        invariant forall j :: i <= j < |cats| ==> cats[j].sessions == old(cats[j].sessions)
      {
        var c := categories[i];
        if Wants(c, parsed) {
          c.sessions := c.sessions + {k};
        }
        i := i + 1;
      }
      OnlyMasksChanged();
    }

    /** A session is set up under index k: its bit goes into the categories its configuration
        wants, and every group becomes exact whatever it was before. A configuration that does
        not parse changes nothing. */
    method OnSetup(k: Session, parsed: Option<Config>)
      requires Valid()
      modifies cats`sessions, grps`sessions
      ensures Valid()
      ensures forall c :: c in cats ==>
        c.sessions == old(c.sessions) +
          if parsed.Some? && c.name.Some? && MostSpecificRule(c.name.value, c.tags, parsed.value) then {k} else {}
      ensures forall g :: g in grps && (g.name.Some? || parsed.None?) ==> g.sessions == old(g.sessions)
      ensures parsed.Some? ==> AllExact()
    {
      if parsed.None? {
        return;
      }
      MarkCategories(k, parsed);
      forall c | c in cats
        ensures Wants(c, parsed) <==> c.name.Some? && MostSpecificRule(c.name.value, c.tags, parsed.value)
      {
        WantsIs(c, parsed);
      }
      UpdateGroupCategories();
    }

    /** The loop of OnStop over the registered categories. */
    method ClearCategories(k: Session)
      requires Valid()
      modifies cats`sessions
      ensures Valid()
      ensures forall c :: c in cats ==> c.sessions == old(c.sessions) - {k}
      ensures forall g :: g in grps ==> g.sessions == old(g.sessions)
    {
      var i := 0;
      while i < categoryCount
        invariant 0 <= i <= |cats|
        invariant forall j :: 0 <= j < i ==> cats[j].sessions == old(cats[j].sessions) - {k}
        invariant forall j :: i <= j < |cats| ==> cats[j].sessions == old(cats[j].sessions)
      {
        var c := categories[i];
        c.sessions := c.sessions - {k};
        i := i + 1;
      }
      OnlyMasksChanged();
    }

    /** The session at index k stops: its bit leaves every category and, through its children,
        every group. */
    method OnStop(k: Session)
      requires Valid()
      modifies cats`sessions, grps`sessions
      ensures Valid() && AllExact()
      ensures forall c :: c in cats ==> c.sessions == old(c.sessions) - {k}
      ensures forall g :: g in grps && g.name.Some? ==> g.sessions == old(g.sessions)
    {
      ClearCategories(k);
      UpdateGroupCategories();
    }

    // -------------------------------------------------------------- registration

    /** A fresh object of the program: not registered, zero-initialised. */
    ghost predicate Unregistered(c: Category)
      reads this`cats, this`grps, c`sessions, c`nameIid
    {
      c !in cats && c !in grps && ChildrenNamed(c) && c.sessions == {} && c.nameIid == 0
    }

    /** Adds a group to the first empty slot; -1 if there is none. */
    method AddGroupCategory(c: Category) returns (added: int)
      requires Valid() && Unregistered(c)
      modifies this`grps, groups
      ensures Valid()
      ensures added == if |old(grps)| < 32 then |old(grps)| else -1
      ensures grps == if |old(grps)| < 32 then old(grps) + [c] else old(grps)
    {
      var i := 0;
      while i < groups.Length
        invariant 0 <= i <= |grps|
        invariant Valid() && grps == old(grps) && cats == old(cats)
      {
        if groups[i] == null {
          groups[i] := c;
          grps := grps + [c];
          return i;
        }
        i := i + 1;
      }
      return -1;
    }

    /** The update of the group that has just been added. */
    method UpdateNewGroup(i: nat, c: Category)
      requires Valid() && i == |grps| - 1 && grps[i] == c
      modifies grps`sessions
      ensures Valid() && IsExact(c) && Or(c.group) == old(Or(c.group))
      ensures forall g :: g in grps && g != c ==> g.sessions == old(g.sessions)
      ensures forall g :: g in grps && g != c && old(IsExact(g)) ==> IsExact(g)
    {
      var _ := UpdateGroupCategory(i);
      forall g | g in grps && g != c ensures g.sessions == old(g.sessions) {
        var j :| 0 <= j < |grps| && grps[j] == g;
        assert j != i;
      }
      assert c in grps && ChildrenNamed(c);
      OrFrame(c.group);
      forall g | g in grps && g != c && old(IsExact(g)) ensures IsExact(g) {
        assert ChildrenNamed(g);
        OrFrame(g.group);
      }
    }

    /** percetto_register_group_category: on success the new group is exact. */
    method RegisterGroupCategory(c: Category) returns (rc: int)
      requires Valid() && Unregistered(c)
      modifies this`grps, groups, grps`sessions, c`sessions
      ensures Valid()
      ensures rc == if |old(grps)| < 32 then 0 else -1
      ensures grps == if rc == 0 then old(grps) + [c] else old(grps)
      ensures forall g :: g in old(grps) ==> g.sessions == old(g.sessions)
      ensures Or(c.group) == old(Or(c.group))
      ensures c.sessions == if rc == 0 then Or(c.group) else {}
      ensures old(AllExact()) ==> AllExact()
    {
      var added := AddGroupCategory(c);
      if 0 <= added < MAX_GROUP_CATEGORIES {
        UpdateNewGroup(added, c);
        rc := 0;
      } else {
        rc := -1;
      }
    }

    /** How many categories precede the first group in an init list. */
    static function LeadingCategories(list: seq<Category>): (n: nat)
      ensures n <= |list|
      ensures forall i :: 0 <= i < n ==> list[i].name.Some?
      ensures n < |list| ==> list[n].name.None?
    {
      if list == [] || list[0].name.None? then 0 else 1 + LeadingCategories(list[1..])
    }

    lemma LeadIs(list: seq<Category>, n: nat)
      requires n <= |list| && (forall i :: 0 <= i < n ==> list[i].name.Some?)
      requires n < |list| ==> list[n].name.None?
      ensures LeadingCategories(list) == n
    {
    }

    static function Min(a: nat, b: nat): nat {
      if a < b then a else b
    }

    ghost predicate AllUnregistered(list: seq<Category>)
      reads this`cats, this`grps, list`sessions, list`nameIid
    {
      forall c :: c in list ==> Unregistered(c)
    }

    /** The first objects of the list are numbered and stored beyond the published count; the
        rest are untouched. */
    ghost predicate Staged(list: seq<Category>, storeI: nat)
      requires Shape()
      reads this`categoryCount, this`cats, this`grps, categories, groups, list`nameIid
    {
      var n := storeI - |cats|;
      && 0 <= n <= |list| && storeI <= MAX_CATEGORIES
      && (forall i :: 0 <= i < n ==>
            categories[|cats| + i] == list[i] && list[i].nameIid == |cats| + i + 1 && list[i].name.Some?)
      && (forall i :: n <= i < |list| ==> list[i].nameIid == 0)
    }

    lemma NothingStaged(list: seq<Category>)
      requires Valid() && AllUnregistered(list)
      ensures Staged(list, categoryCount)
    {
      forall i | 0 <= i < |list| ensures list[i].nameIid == 0 {
        assert Unregistered(list[i]);
      }
    }

    method StoreCategory(c: Category, storeI: nat, ghost list: seq<Category>)
      requires Valid() && Distinct(list) && AllDetached(list) && Staged(list, storeI)
      requires storeI < MAX_CATEGORIES && storeI - |cats| < |list|
      requires c == list[storeI - |cats|] && c.name.Some?
      modifies categories, list`nameIid
      ensures Valid() && Staged(list, storeI + 1)
    {
      c.nameIid := storeI + 1;
      categories[storeI] := c;
    }

    /** None of the objects is registered yet. */
    ghost predicate AllDetached(list: seq<Category>)
      reads this`cats, this`grps
    {
      forall c :: c in list ==> c !in cats && c !in grps
    }

    /** The release store of the count. */
    method Publish(list: seq<Category>, storeI: nat)
      requires Valid() && Distinct(list) && AllDetached(list) && Staged(list, storeI)
      modifies this`categoryCount, this`cats
      ensures Valid() && cats == old(cats) + list[..storeI - |old(cats)|]
      ensures forall i :: storeI - |old(cats)| <= i < |list| ==> list[i] !in cats && list[i].nameIid == 0
    {
      categoryCount := storeI;
      cats := cats + list[..storeI - |cats|];
    }

    /** Where the loop stands after inI objects. */
    ghost predicate Loading(list: seq<Category>, inI: nat, storeI: nat)
      reads this`categoryCount, this`cats, this`grps, categories, groups
      reads cats`nameIid, grps`nameIid, grps`sessions, list`nameIid
    {
      && Valid() && Distinct(list) && AllDetached(list) && inI <= |list|
      && storeI == |cats| + Min(inI, MAX_CATEGORIES - |cats|)
      && Staged(list, storeI)
    }

    /** One round: the category is stored, or dropped because the array is full. */
    method StoreNext(list: seq<Category>, inI: nat, storeI: nat) returns (next: nat)
      requires inI < |list| && list[inI].name.Some? && Loading(list, inI, storeI)
      modifies categories, list`nameIid
      ensures Loading(list, inI + 1, next)
    {
      next := storeI;
      if storeI < MAX_CATEGORIES {
        StoreCategory(list[inI], storeI, list);
        next := storeI + 1;
      }
    }

    /** The loop itself, which stops at the first group. */
    method StoreLeading(list: seq<Category>) returns (inI: nat, storeI: nat)
      requires Valid() && Distinct(list) && AllUnregistered(list)
      modifies categories, list`nameIid
      ensures inI == LeadingCategories(list) && Loading(list, inI, storeI)
    {
      inI, storeI := 0, categoryCount;
      NothingStaged(list);
      while inI < |list| && list[inI].name.Some?
        invariant Loading(list, inI, storeI)
        invariant forall p :: 0 <= p < inI ==> list[p].name.Some?
      {
        storeI := StoreNext(list, inI, storeI);
        inI := inI + 1;
      }
      LeadIs(list, inI);
    }

    /** The first loop of percetto_init_with_args: the leading categories are numbered and
        stored until the array is full, and published together. The others are dropped. */
    method StoreCategories(list: seq<Category>) returns (next: nat)
      requires Valid() && Distinct(list) && AllUnregistered(list)
      modifies this`categoryCount, this`cats, categories, list`nameIid
      ensures Valid()
      ensures next == LeadingCategories(list)
      ensures cats == old(cats) + list[..Min(next, 64 - |old(cats)|)]
      ensures forall i :: Min(next, 64 - |old(cats)|) <= i < |list| ==>
        list[i] !in cats && list[i].nameIid == 0
    {
      var storeI: nat;
      next, storeI := StoreLeading(list);
      Publish(list, storeI);
    }

    /** The second loop: all that is left of the list goes into the group array, for as long as
        it has room. */
    method AddGroups(list: seq<Category>)
      requires Valid() && Distinct(list) && AllUnregistered(list)
      modifies this`grps, groups
      ensures Valid()
      ensures grps == old(grps) + list[..Min(|list|, 32 - |old(grps)|)]
    {
      var i := 0;
      while i < |list|
        invariant 0 <= i <= |list| && Valid() && cats == old(cats)
        invariant grps == old(grps) + list[..Min(i, MAX_GROUP_CATEGORIES - |old(grps)|)]
      {
        assert old(Unregistered(list[i]));
        assert list[i] !in list[..i];
        var _ := AddGroupCategory(list[i]);
        i := i + 1;
      }
    }

    /** No mask has changed; registered groups have only been added, with empty masks. */
    twostate lemma ExactnessAfterInit(added: seq<Category>)
      requires old(Valid()) && Valid() && grps == old(grps) + added
      requires forall g :: g in old(grps) ==> g.sessions == old(g.sessions)
      requires forall g :: g in added ==> g.sessions == {}
      requires forall g :: g in old(grps) + added ==> Or(g.group) == old(Or(g.group))
      ensures AllExact() <==> old(AllExact()) && forall g :: g in added ==> Or(g.group) == {}
    {
      forall g | g in old(grps) ensures IsExact(g) <==> old(IsExact(g)) {
        assert g in grps;
      }
      forall g | g in added ensures IsExact(g) <==> Or(g.group) == {} {
        assert g in grps;
      }
    }

    /** And what that means for the groups: masks are left alone. */
    method AddRest(list: seq<Category>) returns (ghost added: seq<Category>)
      requires Valid() && Distinct(list) && AllUnregistered(list)
      modifies this`grps, groups
      ensures Valid()
      ensures added == list[..Min(|list|, 32 - |old(grps)|)] && grps == old(grps) + added
      ensures AllExact() <==> old(AllExact()) && forall g :: g in added ==> Or(g.group) == {}
    {
      AddGroups(list);
      added := list[..Min(|list|, MAX_GROUP_CATEGORIES - |old(grps)|)];
      forall g | g in added ensures g.sessions == {} {
        assert g in list && old(Unregistered(g));
      }
      ExactnessAfterInit(added);
    }

    /** Exactness is a matter of masks alone. */
    twostate lemma SameExactness()
      requires grps == old(grps) && forall g :: g in grps ==> g.sessions == old(g.sessions)
      requires forall g, i :: g in grps && 0 <= i < MAX_GROUP_SIZE && g.group[i] != null ==>
        g.group[i].sessions == old(g.group[i].sessions)
      ensures AllExact() <==> old(AllExact())
    {
      forall g | g in grps ensures IsExact(g) <==> old(IsExact(g)) {
        OrFrame(g.group);
      }
    }

    /** Both loops. Masks are left alone, so the groups are all exact afterwards exactly when
        they were before and the new ones have no active children. */
    method AddObjects(list: seq<Category>) returns (ghost added: seq<Category>)
      requires Valid() && Distinct(list) && AllUnregistered(list)
      modifies this`categoryCount, this`cats, this`grps, categories, groups, list`nameIid
      ensures Valid()
      ensures cats == old(cats) + list[..Min(LeadingCategories(list), 64 - |old(cats)|)]
      ensures var rest := list[LeadingCategories(list)..];
              added == rest[..Min(|rest|, 32 - |old(grps)|)]
      ensures grps == old(grps) + added
      ensures forall c :: c in list && c !in cats ==> c.nameIid == 0
      ensures AllExact() <==> old(AllExact()) && forall g :: g in added ==> Or(g.group) == {}
    {
      var next := StoreCategories(list);
      SameExactness();
      forall c | c in list[next..] ensures c in list && Unregistered(c) {
        assert old(Unregistered(c));
      }
      added := AddRest(list[next..]);
    }

    /** The beginning of percetto_init_with_args: the first call that gets a clock sets the flag
        and computes the process uuid. */
    method EnsureInitialized(clockOk: bool, uuid: bv64) returns (ok: bool)
      modifies this`isInitialized, this`processUuid
      ensures ok == isInitialized == (old(isInitialized) || clockOk)
      ensures processUuid == if old(isInitialized) || !clockOk then old(processUuid) else uuid
    {
      if !isInitialized {
        if !clockOk {
          return false;
        }
        isInitialized := true;
        processUuid := uuid;
      }
      ok := true;
    }

    /** percetto_init_with_args. A clock error changes nothing; otherwise the objects are added,
        and those that are not published as categories keep the iid zero. */
    method InitWithArgs(list: seq<Category>, clockOk: bool, uuid: bv64, registerOk: bool)
        returns (rc: int, ghost added: seq<Category>)
      requires Valid() && Distinct(list) && AllUnregistered(list)
      modifies this, categories, groups, list`nameIid
      ensures Valid()
      ensures rc == if !old(isInitialized) && !clockOk then -4 else if old(isInitialized) || registerOk then 0 else -1
      ensures isInitialized == (rc != -4)
      ensures processUuid == if old(isInitialized) || rc == -4 then old(processUuid) else uuid
      ensures cats == if rc == -4 then old(cats)
                      else old(cats) + list[..Min(LeadingCategories(list), 64 - |old(cats)|)]
      ensures var rest := list[LeadingCategories(list)..];
              added == if rc == -4 then [] else rest[..Min(|rest|, 32 - |old(grps)|)]
      ensures grps == old(grps) + added
      ensures forall c :: c in list && c !in cats ==> c.nameIid == 0
      ensures rc == -4 ==> categories[..] == old(categories[..])
      ensures rc == -4 ==> forall c :: c in list ==> c.nameIid == old(c.nameIid)
      ensures AllExact() <==> old(AllExact()) && forall g :: g in added ==> Or(g.group) == {}
    {
      var isFirstInit := !isInitialized;
      var ok := EnsureInitialized(clockOk, uuid);
      SameExactness();
      if !ok {
        return -4, [];
      }
      added := AddObjects(list);
      rc := if !isFirstInit || registerOk then 0 else -1;
    }

    // -------------------------------------------------------------- tracks

    ghost predicate TracksCompact()
      reads tracks
    {
      tracks.Length == MAX_TRACKS &&
      forall i, j :: 0 <= i < j < tracks.Length && tracks[j] != null ==> tracks[i] != null
    }

    /** The loop of percetto_register_track, up to the first slot that is empty. */
    method TakeSlot(track: Track) returns (rc: int, ghost slot: int)
      requires TracksCompact()
      modifies track`uuid, tracks
      ensures TracksCompact()
      ensures if rc == 0 then 0 <= slot < 32 else rc == slot == -1
      ensures rc == 0 ==> old(tracks[slot]) == null && (forall j :: 0 <= j < slot ==> old(tracks[j]) != null)
      ensures rc == 0 ==> tracks[..] == old(tracks[..])[slot := track]
      ensures rc == -1 ==> tracks[..] == old(tracks[..]) && forall i :: 0 <= i < 32 ==> tracks[i] != null
      ensures track.uuid == T.SlotUuid(if rc == 0 then slot else 31, processUuid)
    {
      var i := 0;
      while i < tracks.Length
        invariant 0 <= i <= tracks.Length
        invariant forall j :: 0 <= j < i ==> tracks[j] != null
        invariant tracks[..] == old(tracks[..])
        invariant i > 0 ==> track.uuid == T.SlotUuid(i - 1, processUuid)
      {
        track.uuid := T.SlotUuid(i, processUuid);
        if tracks[i] == null {
          tracks[i] := track;
          return 0, i;
        }
        i := i + 1;
      }
      rc, slot := -1, -1;
    }

    /** percetto_register_track: the track goes into the first empty slot, with the uuid
        (2^32 + slot) XOR the process uuid. One that is refused keeps the uuid of slot 31, which
        is taken. */
    method RegisterTrack(track: Track) returns (rc: int, ghost slot: int)
      requires TracksCompact()
      modifies track`uuid, track`parentUuid, tracks
      ensures TracksCompact() && track.parentUuid == processUuid
      ensures rc == 0 || rc == -1
      ensures rc == 0 <==> 0 <= slot < 32
      ensures rc == 0 ==> old(tracks[slot]) == null && (forall j :: 0 <= j < slot ==> old(tracks[j]) != null)
      ensures rc == 0 ==> tracks[..] == old(tracks[..])[slot := track]
      ensures rc == -1 ==> tracks[..] == old(tracks[..]) && forall i :: 0 <= i < 32 ==> tracks[i] != null
      ensures T.IsCustomUuid(track.uuid, if rc == 0 then slot else 31, processUuid)
    {
      track.parentUuid := processUuid;
      rc, slot := TakeSlot(track);
      T.SlotUuidIs(track.uuid, if rc == 0 then slot else 31, processUuid);
    }
  }
}
