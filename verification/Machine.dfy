/** The concurrent core of src/percetto.cc as a state machine: initialisation, session setup and
    stop, the lock-free group registry, group mask updates, and the per-thread event streams.
    Each load, store, compare-and-swap, fetch-or and fetch-and of a shared atomic is one step, and
    any number of threads and sessions interleave their steps. */
module Machine {
  import opened Common
  import opened Filter

  /** The address of a percetto_category object. */
  type Category = nat
  /** The bits set in a session mask. */
  type Mask = set<nat>
  type Thread = nat
  type Children = g: seq<Option<Category>> | |g| == MAX_GROUP_SIZE witness [None, None, None, None]

  /** A percetto_category_ext. Group categories have no name. */
  datatype Ext = Ext(name: Option<string>, tags: Tags, group: Children)

  /** The static data of the program: the ext record behind every category object. */
  type Exts = Category -> Ext

  /** What the defining macros produce: named categories have no children, and the children of
      a group are named. */
  ghost predicate WellFormed(x: Exts) {
    forall c: Category, j :: 0 <= j < MAX_GROUP_SIZE && x(c).group[j].Some? ==>
      x(c).name.None? && x(x(c).group[j].value).name.Some?
  }

  // ---------------------------------------------------------------- state

  /** Progress of UpdateGroupCategory: about to load a slot, or reading the children of the
      group found there. */
  datatype Update =
    | Slot(i: nat)
    | Reading(i: nat, g: Category, j: nat, sum: Mask)

  /** A session's callbacks. Parsed is None when its configuration did not parse; n is the
      category count that OnSetup loaded, m the one that OnStop loaded. */
  datatype SessionPc =
    | Idle
    | SetupLoad(parsed: Option<Config>)
    | SetupOr(parsed: Option<Config>, n: nat, i: nat)
    | SetupScan(parsed: Option<Config>, n: nat, u: Update)
    | Active(parsed: Option<Config>, n: nat)
    | StopLoad(parsed: Option<Config>, n: nat)
    | StopAnd(parsed: Option<Config>, n: nat, m: nat, i: nat)
    | StopScan(u: Update)

  /** percetto_init_with_args, adding the objects of its list that are left to do. */
  datatype InitPc =
    | NoInit
    | AddCategories(todo: seq<Category>)
    | AddGroups(todo: seq<Category>, i: nat)

  /** A packet sequence belongs to one thread, one instance index and one use of that index. */
  datatype StreamId = StreamId(t: Thread, k: nat, use: nat)

  /** Cleared carries the interned categories (the entry at index n has iid n + 1); Event
      carries the iids written for its category, by the object each was read from. */
  datatype Packet =
    | Cleared(interned: seq<Category>)
    | Event(c: Category, iids: map<Category, nat>)

  /** bound is a history variable: the category count known when the stream began. */
  datatype Stream = Stream(needUpdate: bool, log: seq<Packet>, bound: nat)

  /** A thread registering a group (Adding, then Refreshing its mask) or tracing an event. */
  datatype ThreadPc =
    | Free
    | Adding(g: Category, i: nat)
    | Refreshing(u: Update)
    | Tracing(c: Category, mask: Mask)
    | InContext(c: Category, mask: Mask, id: StreamId)
    | Interning(c: Category, mask: Mask, id: StreamId)
    | Emitting(c: Category, mask: Mask, id: StreamId)

  /** The registration arrays and the init call that fills them. History: used (objects already
      handed to a registration function), batch (the init call that stored each category). */
  datatype Arrays = Arrays(
    categories: seq<Category>,
    count: nat,
    iids: map<Category, nat>,
    groups: seq<Option<Category>>,
    init: InitPc,
    used: set<Category>,
    batch: seq<nat>,
    inits: nat)

  /** An instance index. History: uses (how often it has been set up) and reach (the category
      count its latest scan of the configuration went up to). */
  datatype Instance = Instance(pc: SessionPc, uses: nat, reach: nat)

  datatype State = State(
    a: Arrays,
    masks: map<Category, Mask>,
    sessions: seq<Instance>,
    threads: map<Thread, ThreadPc>,
    streams: map<StreamId, Stream>)

  function Initial(): State {
    State(Arrays([], 0, map[], seq(MAX_GROUP_CATEGORIES, _ => None), NoInit, {}, [], 0),
          map[], seq(MAX_SESSIONS, _ => Instance(Idle, 0, 0)), map[], map[])
  }

  /** Masks, iids and program counters start out zero. */
  function MaskOf(masks: map<Category, Mask>, c: Category): Mask {
    if c in masks then masks[c] else {}
  }

  function IidOf(a: Arrays, c: Category): nat {
    if c in a.iids then a.iids[c] else 0
  }

  function PcOf(s: State, t: Thread): ThreadPc {
    if t in s.threads then s.threads[t] else Free
  }

  function GroupAt(a: Arrays, i: nat): Option<Category> {
    if i < |a.groups| then a.groups[i] else None
  }

  predicate Wants(x: Exts, parsed: Option<Config>, c: Category) {
    Wanted(x(c).name, x(c).tags, parsed)
  }

  function ChildrenOf(x: Exts, g: Category): set<Category> {
    set j | 0 <= j < MAX_GROUP_SIZE && x(g).group[j].Some? :: x(g).group[j].value
  }

  function ChildMask(x: Exts, masks: map<Category, Mask>, g: Category, j: nat): Mask
    requires j < MAX_GROUP_SIZE
  {
    if x(g).group[j].Some? then MaskOf(masks, x(g).group[j].value) else {}
  }

  /** The OR of the masks of the first j children. */
  function PartialSum(x: Exts, masks: map<Category, Mask>, g: Category, j: nat): Mask
    requires j <= MAX_GROUP_SIZE
  {
    if j == 0 then {} else PartialSum(x, masks, g, j - 1) + ChildMask(x, masks, g, j - 1)
  }

  function Sum(x: Exts, masks: map<Category, Mask>, g: Category): Mask {
    PartialSum(x, masks, g, MAX_GROUP_SIZE)
  }

  // ---------------------------------------------------------------- group updates

  /** The next stage of an update, None when it is over. A scan goes on to the next slot, a
      registrant's update stops after its own. */
  function AfterUpdate(x: Exts, a: Arrays, masks: map<Category, Mask>, u: Update, scan: bool): Option<Update> {
    match u
    case Slot(i) =>
      if GroupAt(a, i).Some? then Some(Reading(i, GroupAt(a, i).value, 0, {})) else None
    case Reading(i, g, j, sum) =>
      if j < MAX_GROUP_SIZE then Some(Reading(i, g, j + 1, sum + ChildMask(x, masks, g, j)))
      else if scan then Some(Slot(i + 1))
      else None
  }

  /** The plain store that ends the update of a slot. */
  function MasksAfterUpdate(masks: map<Category, Mask>, u: Update): map<Category, Mask> {
    if u.Reading? && u.j >= MAX_GROUP_SIZE then masks[u.g := u.sum] else masks
  }

  // ---------------------------------------------------------------- percetto_init_with_args

  /** Stores a category and its iid, and announces nothing yet. */
  function StoreCategory(a: Arrays, c: Category, rest: seq<Category>): Arrays {
    a.(categories := a.categories + [c],
       batch := a.batch + [a.inits],
       iids := a.iids[c := |a.categories| + 1],
       init := AddCategories(rest))
  }

  function StepInit(x: Exts, a: Arrays): Arrays {
    match a.init
    case NoInit => a
    case AddCategories(todo) =>
      if todo == [] || x(todo[0]).name.None? then
        a.(count := |a.categories|, init := AddGroups(todo, 0))
      else if |a.categories| == MAX_CATEGORIES then
        a.(init := AddCategories(todo[1..]))
      else StoreCategory(a, todo[0], todo[1..])
    case AddGroups(todo, i) =>
      if todo == [] then a.(init := NoInit)
      else if i >= |a.groups| then a.(init := AddGroups(todo[1..], 0))
      else if a.groups[i].None? then
        a.(groups := a.groups[i := Some(todo[0])], init := AddGroups(todo[1..], 0))
      else a.(init := AddGroups(todo, i + 1))
  }

  // ---------------------------------------------------------------- OnSetup and OnStop

  /** The instance is in use and its OnSetup is past the load of the category count. */
  predicate Live(pc: SessionPc) {
    !pc.Idle? && !pc.SetupLoad?
  }

  function StepInstance(x: Exts, a: Arrays, masks: map<Category, Mask>, me: Instance): Instance {
    match me.pc
    case SetupLoad(parsed) =>
      if parsed.None? then me.(pc := Active(parsed, 0))
      else me.(pc := SetupOr(parsed, a.count, 0), reach := a.count)
    case SetupOr(parsed, n, i) =>
      me.(pc := if i < n then SetupOr(parsed, n, i + 1) else SetupScan(parsed, n, Slot(0)))
    case SetupScan(parsed, n, u) =>
      var next := AfterUpdate(x, a, masks, u, true);
      me.(pc := if next.Some? then SetupScan(parsed, n, next.value) else Active(parsed, n))
    case StopLoad(parsed, n) =>
      me.(pc := StopAnd(parsed, n, a.count, 0))
    case StopAnd(parsed, n, m, i) =>
      me.(pc := if i < m then StopAnd(parsed, n, m, i + 1) else StopScan(Slot(0)))
    case StopScan(u) =>
      var next := AfterUpdate(x, a, masks, u, true);
      me.(pc := if next.Some? then StopScan(next.value) else Idle)
    case _ => me
  }

  /** The fetch-or, fetch-and or store that instance k performs in its next step. */
  function StepMasks(x: Exts, a: Arrays, masks: map<Category, Mask>, k: nat, pc: SessionPc): map<Category, Mask> {
    match pc
    case SetupOr(parsed, n, i) =>
      if i < n && i < |a.categories| && Wants(x, parsed, a.categories[i]) then
        masks[a.categories[i] := MaskOf(masks, a.categories[i]) + {k}]
      else masks
    case StopAnd(_, _, m, i) =>
      if i < m && i < |a.categories| then
        masks[a.categories[i] := MaskOf(masks, a.categories[i]) - {k}]
      else masks
    case SetupScan(_, _, u) => MasksAfterUpdate(masks, u)
    case StopScan(u) => MasksAfterUpdate(masks, u)
    case _ => masks
  }

  function StepSession(x: Exts, s: State, k: nat): State
    requires k < |s.sessions|
  {
    s.(sessions := s.sessions[k := StepInstance(x, s.a, s.masks, s.sessions[k])],
       masks := StepMasks(x, s.a, s.masks, k, s.sessions[k].pc))
  }

  // ---------------------------------------------------------------- registrants and events

  /** The iids an event of c carries: its own, or its children's when it has none. */
  function EventIids(x: Exts, a: Arrays, c: Category): map<Category, nat> {
    if IidOf(a, c) != 0 then map[c := IidOf(a, c)]
    else map d | d in ChildrenOf(x, c) :: IidOf(a, d)
  }

  function Log(streams: map<StreamId, Stream>, id: StreamId, packet: Packet): map<StreamId, Stream> {
    if id in streams then streams[id := streams[id].(log := streams[id].log + [packet])] else streams
  }

  predicate NeedsUpdate(streams: map<StreamId, Stream>, id: StreamId) {
    id in streams && streams[id].needUpdate
  }

  function SetNeedUpdate(streams: map<StreamId, Stream>, id: StreamId, value: bool): map<StreamId, Stream> {
    if id in streams then streams[id := streams[id].(needUpdate := value)] else streams
  }

  /** percetto_register_group_category: compare-and-swap along the slots, then one update. */
  function StepAdding(s: State, t: Thread, g: Category, i: nat): State {
    if i >= |s.a.groups| then s.(threads := s.threads[t := Free])
    else if s.a.groups[i].None? then
      s.(a := s.a.(groups := s.a.groups[i := Some(g)]), threads := s.threads[t := Refreshing(Slot(i))])
    else s.(threads := s.threads[t := Adding(g, i + 1)])
  }

  function StepRefreshing(x: Exts, s: State, t: Thread, u: Update): State {
    var next := AfterUpdate(x, s.a, s.masks, u, false);
    s.(masks := MasksAfterUpdate(s.masks, u),
       threads := s.threads[t := if next.Some? then Refreshing(next.value) else Free])
  }

  /** TraceTrackEvent and DoIncrementalUpdate inside one instance. The event is over when no
      instance in use is left in the mask. */
  function StepEvent(x: Exts, s: State, t: Thread, pc: ThreadPc): State {
    match pc
    case Tracing(c, mask) =>
      if exists k :: k in mask && k < |s.sessions| && Live(s.sessions[k].pc) then s
      else s.(threads := s.threads[t := Free])
    case InContext(c, mask, id) =>
      if NeedsUpdate(s.streams, id) then
        s.(streams := SetNeedUpdate(s.streams, id, false), threads := s.threads[t := Interning(c, mask, id)])
      else s.(threads := s.threads[t := Emitting(c, mask, id)])
    case Interning(c, mask, id) =>
      var interned := if s.a.count <= |s.a.categories| then s.a.categories[..s.a.count] else s.a.categories;
      s.(streams := Log(s.streams, id, Cleared(interned)), threads := s.threads[t := Emitting(c, mask, id)])
    case Emitting(c, mask, id) =>
      s.(streams := Log(s.streams, id, Event(c, EventIids(x, s.a, c))), threads := s.threads[t := Tracing(c, mask)])
    case _ => s
  }

  function StepThread(x: Exts, s: State, t: Thread): State {
    match PcOf(s, t)
    case Adding(g, i) => StepAdding(s, t, g, i)
    case Refreshing(u) => StepRefreshing(x, s, t, u)
    case pc => StepEvent(x, s, t, pc)
  }

  function Enter(s: State, t: Thread, k: nat): State
    requires PcOf(s, t).Tracing? && k < |s.sessions|
  {
    var Tracing(c, mask) := PcOf(s, t);
    var id := StreamId(t, k, s.sessions[k].uses);
    s.(threads := s.threads[t := InContext(c, mask - {k}, id)],
       streams := if id in s.streams then s.streams else s.streams[id := Stream(true, [], s.sessions[k].reach)])
  }

  // ---------------------------------------------------------------- runs

  datatype Action =
    | BeginInit(list: seq<Category>)
    | DoInit
    | BeginSetup(k: nat, parsed: Option<Config>)
    | BeginStop(k: nat)
    | DoSession(k: nat)
    | BeginRegister(t: Thread, g: Category)
    | BeginEvent(t: Thread, c: Category)
    | EnterContext(t: Thread, k: nat)
    | DoThread(t: Thread)
    | ResetStream(id: StreamId)

  /** What may happen next. Init calls do not overlap, no object is registered twice, and the
      SDK runs an instance's callbacks and traces into it only while the instance is in use. */
  ghost predicate Enabled(s: State, act: Action) {
    match act
    case BeginInit(list) => s.a.init == NoInit && Distinct(list) && forall c :: c in list ==> c !in s.a.used
    case DoInit => true
    case BeginSetup(k, _) => k < |s.sessions| && s.sessions[k].pc.Idle?
    case BeginStop(k) => k < |s.sessions| && s.sessions[k].pc.Active?
    case DoSession(k) => k < |s.sessions|
    case BeginRegister(t, g) => PcOf(s, t).Free? && g !in s.a.used
    case BeginEvent(t, _) => PcOf(s, t).Free?
    case EnterContext(t, k) =>
      && PcOf(s, t).Tracing? && k in PcOf(s, t).mask
      && k < |s.sessions| && Live(s.sessions[k].pc)
    case DoThread(_) => true
    case ResetStream(id) => id in s.streams
  }

  ghost function Do(x: Exts, s: State, act: Action): State
    requires Enabled(s, act)
  {
    match act
    case BeginInit(list) =>
      s.(a := s.a.(init := AddCategories(list), inits := s.a.inits + 1, used := s.a.used + set c | c in list))
    case DoInit => s.(a := StepInit(x, s.a))
    case BeginSetup(k, parsed) =>
      s.(sessions := s.sessions[k := s.sessions[k].(pc := SetupLoad(parsed), uses := s.sessions[k].uses + 1)])
    case BeginStop(k) =>
      var Active(parsed, n) := s.sessions[k].pc;
      s.(sessions := s.sessions[k := s.sessions[k].(pc := StopLoad(parsed, n))])
    case DoSession(k) => StepSession(x, s, k)
    case BeginRegister(t, g) =>
      s.(a := s.a.(used := s.a.used + {g}), threads := s.threads[t := Adding(g, 0)])
    case BeginEvent(t, c) =>
      s.(threads := s.threads[t := Tracing(c, MaskOf(s.masks, c))])
    case EnterContext(t, k) => Enter(s, t, k)
    case DoThread(t) => StepThread(x, s, t)
    case ResetStream(id) => s.(streams := SetNeedUpdate(s.streams, id, true))
  }

  ghost predicate Next(x: Exts, s: State, s': State) {
    exists act :: Enabled(s, act) && s' == Do(x, s, act)
  }

  ghost predicate StepAt(x: Exts, run: seq<State>, i: int) {
    0 <= i < |run| - 1 && Next(x, run[i], run[i+1])
  }

  /** A run from the state in which nothing has been registered yet. */
  ghost predicate IsRun(x: Exts, run: seq<State>) {
    && |run| > 0
    && run[0] == Initial()
    && forall i :: 0 <= i < |run| - 1 ==> StepAt(x, run, i)
  }
}
