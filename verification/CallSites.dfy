/** Lazy initialisation and the call-site caches of the atrace macros, as a state machine: any
    number of threads pass any number of call sites. Loads and stores of a cache, of the status
    and of the mutex are steps; what the mutex protects is one step each. */
module CallSites {
  import opened Common
  import opened AtraceMemo

  type Thread = nat
  type Site = nat

  /** The fixed tags of a call site and, for counters, its name. */
  datatype SiteData = SiteData(w: TagWord, name: Option<Address>)
  type Sites = Site -> SiteData

  /** Where a thread is. back is the call site to go on with after atrace_init, if any; cat and
      trk are what the thread has loaded from the caches, None for null. */
  datatype Pc =
    | Outside
    | LoadCat(site: Site)
    | CheckStatus(site: Site)
    | InitLock(back: Option<Site>)
    | InitCheck(back: Option<Site>)
    | InitRun(back: Option<Site>)
    | InitStore(back: Option<Site>, ok: bool)
    | InitUnlock(back: Option<Site>)
    | Lock(site: Site)
    | MakeCounter(site: Site)
    | StoreTrk(site: Site, track: Option<nat>)
    | MakeCategory(site: Site)
    | StoreCat(site: Site, found: Found)
    | Unlock(site: Site)
    | ReloadCat(site: Site)
    | ReloadTrk(site: Site, cat: Option<Found>)
    | Tracing(site: Site, cat: Option<Found>, trk: Option<nat>)

  /** A cache that is not in its map is null. inits counts the calls of PERCETTO_INIT. */
  datatype State = State(
    tables: Tables,
    lock: Option<Thread>,
    inits: nat,
    cats: map<Site, Found>,
    trks: map<Site, nat>,
    threads: map<Thread, Pc>)

  function Initial(): State {
    State(Tables(NotStarted, [], []), None, 0, map[], map[], map[])
  }

  function PcOf(s: State, t: Thread): Pc {
    if t in s.threads then s.threads[t] else Outside
  }

  function Get<V>(cache: map<Site, V>, site: Site): Option<V> {
    if site in cache then Some(cache[site]) else None
  }

  function Put<V>(cache: map<Site, V>, site: Site, value: Option<V>): map<Site, V> {
    if value.Some? then cache[site := value.value] else cache
  }

  function Goto(s: State, t: Thread, pc: Pc): State {
    s.(threads := s.threads[t := pc])
  }

  /** atrace_init; ok says whether PERCETTO_INIT, if this step runs it, succeeds. */
  function StepInit(s: State, t: Thread, pc: Pc, ok: bool): State {
    match pc
    case InitLock(back) => if s.lock.None? then Goto(s.(lock := Some(t)), t, InitCheck(back)) else s
    case InitCheck(back) => Goto(s, t, if s.tables.status != NotStarted then InitUnlock(back) else InitRun(back))
    case InitRun(back) => Goto(s.(inits := s.inits + 1), t, InitStore(back, ok))
    case InitStore(back, result) =>
      Goto(s.(tables := s.tables.(status := if result then Ok else Error)), t, InitUnlock(back))
    case InitUnlock(back) => Goto(s.(lock := None), t, if back.Some? then Lock(back.value) else Outside)
    case _ => s
  }

  /** atrace_create_category and atrace_create_category_and_counter. */
  function StepCreate(sites: Sites, s: State, t: Thread, pc: Pc): State {
    match pc
    case CheckStatus(site) => Goto(s, t, if s.tables.status == NotStarted then InitLock(Some(site)) else Lock(site))
    case Lock(site) =>
      if s.lock.Some? then s
      else Goto(s.(lock := Some(t)), t, if sites(site).name.Some? then MakeCounter(site) else MakeCategory(site))
    case MakeCounter(site) =>
      if sites(site).name.None? then s
      else
        var name := sites(site).name.value;
        Goto(s.(tables := AfterTrack(s.tables, name)), t, StoreTrk(site, TrackFor(s.tables, name)))
    case StoreTrk(site, track) => Goto(s.(trks := Put(s.trks, site, track)), t, MakeCategory(site))
    case MakeCategory(site) =>
      var w := sites(site).w;
      Goto(s.(tables := AfterCategory(s.tables, w)), t, StoreCat(site, CategoryFor(s.tables, w)))
    case StoreCat(site, found) => Goto(s.(cats := Put(s.cats, site, Some(found))), t, Unlock(site))
    case Unlock(site) => Goto(s.(lock := None), t, ReloadCat(site))
    case _ => s
  }

  /** The macros. */
  function Step(sites: Sites, s: State, t: Thread, ok: bool): State {
    match PcOf(s, t)
    case Outside => s
    case LoadCat(site) => Goto(s, t, if site in s.cats then ReloadCat(site) else CheckStatus(site))
    case ReloadCat(site) => Goto(s, t, ReloadTrk(site, Get(s.cats, site)))
    case ReloadTrk(site, cat) => Goto(s, t, Tracing(site, cat, Get(s.trks, site)))
    case Tracing(_, _, _) => Goto(s, t, Outside)
    case pc => if InInit(pc) then StepInit(s, t, pc, ok) else StepCreate(sites, s, t, pc)
  }

  predicate InInit(pc: Pc) {
    pc.InitLock? || pc.InitCheck? || pc.InitRun? || pc.InitStore? || pc.InitUnlock?
  }

  /** A thread reaches a call site, or ATRACE_INIT, or takes its next step. */
  datatype Action =
    | Reach(t: Thread, site: Site)
    | ReachInit(t: Thread)
    | Do(t: Thread, ok: bool)

  predicate Enabled(s: State, act: Action) {
    act.Do? || PcOf(s, act.t).Outside?
  }

  function After(sites: Sites, s: State, act: Action): State {
    match act
    case Reach(t, site) => Goto(s, t, LoadCat(site))
    case ReachInit(t) => Goto(s, t, InitLock(None))
    case Do(t, ok) => Step(sites, s, t, ok)
  }

  ghost predicate StepAt(sites: Sites, run: seq<State>, i: int) {
    0 <= i < |run| - 1 && exists act :: Enabled(run[i], act) && run[i+1] == After(sites, run[i], act)
  }

  ghost predicate IsRun(sites: Sites, run: seq<State>) {
    |run| > 0 && run[0] == Initial() && forall i :: 0 <= i < |run| - 1 ==> StepAt(sites, run, i)
  }

  // ---------------------------------------------------------------- invariant

  predicate Holding(pc: Pc) {
    pc.InitCheck? || pc.InitRun? || pc.InitStore? || pc.InitUnlock? || Creating(pc) || pc.Unlock?
  }

  /** Inside one of the functions that create categories and counters. */
  predicate Creating(pc: Pc) {
    pc.MakeCounter? || pc.StoreTrk? || pc.MakeCategory? || pc.StoreCat?
  }

  /** Asking for this name again gives the same track and changes nothing. */
  ghost predicate TrackFixed(t: Tables, name: Address) {
    t.status != NotStarted && (t.status == Ok ==> Settled(t.names, name, MAX_TRACKS))
  }

  /** The track cache of a site, if set, holds its name's track for good. */
  ghost predicate TrkOk(sites: Sites, s: State, site: Site) {
    site in s.trks ==>
      && sites(site).name.Some? && TrackFixed(s.tables, sites(site).name.value)
      && TrackFor(s.tables, sites(site).name.value) == Some(s.trks[site])
  }

  /** The track cache of a site has its final value, which is null if the name got no track. */
  ghost predicate TrkFinal(sites: Sites, s: State, site: Site) {
    match sites(site).name
    case None => site !in s.trks
    case Some(name) => TrackFixed(s.tables, name) && Get(s.trks, site) == TrackFor(s.tables, name)
  }

  ghost predicate CatOk(sites: Sites, s: State, site: Site) {
    site in s.cats ==> CategoryFixed(s.tables, sites(site).w, s.cats[site]) && TrkFinal(sites, s, site)
  }

  ghost predicate PcOk(sites: Sites, s: State, t: Thread, pc: Pc) {
    && (Holding(pc) <==> s.lock == Some(t))
    && (pc.Lock? || Creating(pc) || pc.Unlock? || pc.InitUnlock? ==> s.tables.status != NotStarted)
    && match pc
       case InitRun(_) => s.tables.status == NotStarted && s.inits == 0
       case InitStore(_, _) => s.tables.status == NotStarted && s.inits == 1
       case MakeCounter(site) => sites(site).name.Some?
       case StoreTrk(site, track) =>
         && sites(site).name.Some? && TrackFixed(s.tables, sites(site).name.value)
         && track == TrackFor(s.tables, sites(site).name.value)
       case MakeCategory(site) => TrkFinal(sites, s, site)
       case StoreCat(site, found) => TrkFinal(sites, s, site) && CategoryFixed(s.tables, sites(site).w, found)
       case Unlock(site) => site in s.cats
       case ReloadCat(site) => site in s.cats
       case ReloadTrk(site, cat) => site in s.cats && cat == Some(s.cats[site])
       case Tracing(site, cat, trk) => site in s.cats && cat == Some(s.cats[site]) && trk == Get(s.trks, site)
       case _ => true
  }

  /** PERCETTO_INIT has run exactly if the status says so or is about to. */
  ghost predicate InitsOk(s: State) {
    && s.inits <= 1
    && (s.tables.status != NotStarted ==> s.inits == 1)
    && (s.tables.status == NotStarted && s.inits == 1 ==> s.lock.Some? && PcOf(s, s.lock.value).InitStore?)
  }

  ghost predicate Inv(sites: Sites, s: State) {
    && TablesOk(s.tables)
    && InitsOk(s)
    && (forall site :: TrkOk(sites, s, site) && CatOk(sites, s, site))
    && (forall t :: PcOk(sites, s, t, PcOf(s, t)))
  }

  // ---------------------------------------------------------------- steps

  lemma InitialInv(sites: Sites)
    ensures Inv(sites, Initial())
  {
  }

  /** What is fixed stays so. */
  ghost predicate KeepsAnswers(t: Tables, t': Tables) {
    && (t.status != NotStarted ==> t'.status == t.status)
    && (forall w, found :: CategoryFixed(t, w, found) ==> CategoryFixed(t', w, found))
    && (forall name :: TrackFixed(t, name) ==> TrackFixed(t', name) && TrackFor(t', name) == TrackFor(t, name))
  }

  lemma TrackKeepsAnswers(t: Tables, name: Address)
    requires TablesOk(t)
    ensures TablesOk(AfterTrack(t, name)) && KeepsAnswers(t, AfterTrack(t, name))
  {
    var t' := AfterTrack(t, name);
    forall n | TrackFixed(t, n) ensures TrackFixed(t', n) && TrackFor(t', n) == TrackFor(t, n) {
      if t.status == Ok { SettledStays(t.names, n, name, MAX_TRACKS); }
    }
  }

  lemma TrackGetsFixed(t: Tables, name: Address)
    requires t.status != NotStarted
    ensures TrackFixed(AfterTrack(t, name), name) && TrackFor(AfterTrack(t, name), name) == TrackFor(t, name)
  {
    AskingSettles(t.names, name, MAX_TRACKS);
  }

  lemma CategoryKeepsAnswers(t: Tables, w: TagWord)
    requires TablesOk(t) && t.status != NotStarted
    ensures TablesOk(AfterCategory(t, w)) && KeepsAnswers(t, AfterCategory(t, w))
  {
    CategoryKeepsTables(t, w);
    forall v, found | CategoryFixed(t, v, found) ensures CategoryFixed(AfterCategory(t, w), v, found) {
      CategoryStaysFixed(t, AtraceMemo.CreateCategory(true, w), v, found);
    }
  }

  /** The caches of a site with a category keep their values, and answers stay. */
  ghost predicate Keeps(s: State, s': State) {
    && KeepsAnswers(s.tables, s'.tables)
    && (forall site :: site in s.cats ==>
          site in s'.cats && s'.cats[site] == s.cats[site] && Get(s'.trks, site) == Get(s.trks, site))
  }

  /** A step of thread t: whoever does not hold the mutex changes nothing that is shared. */
  lemma FrameInv(sites: Sites, s: State, s': State, t: Thread)
    requires Inv(sites, s) && Keeps(s, s')
    requires forall t' :: t' != t ==> PcOf(s', t') == PcOf(s, t')
    requires s'.lock == s.lock || (s.lock.None? && s'.lock == Some(t)) || (s.lock == Some(t) && s'.lock.None?)
    requires Holding(PcOf(s, t))
      || (s'.tables == s.tables && s'.cats == s.cats && s'.trks == s.trks && s'.inits == s.inits)
    requires TablesOk(s'.tables) && InitsOk(s')
    requires forall site :: TrkOk(sites, s', site) && CatOk(sites, s', site)
    requires PcOk(sites, s', t, PcOf(s', t))
    ensures Inv(sites, s')
  {
    assert PcOk(sites, s, t, PcOf(s, t));
    forall t' | t' != t ensures PcOk(sites, s', t', PcOf(s', t')) {
      assert PcOk(sites, s, t', PcOf(s, t'));
    }
  }

  /** A step that changes nothing shared but the mutex. */
  lemma QuietFrame(sites: Sites, s: State, s': State, t: Thread)
    requires Inv(sites, s)
    requires forall t' :: t' != t ==> PcOf(s', t') == PcOf(s, t')
    requires s'.lock == s.lock || (s.lock.None? && s'.lock == Some(t)) || (s.lock == Some(t) && s'.lock.None?)
    requires s'.tables == s.tables && s'.cats == s.cats && s'.trks == s.trks && s'.inits == s.inits
    requires PcOk(sites, s', t, PcOf(s', t)) && !PcOf(s, t).InitStore?
    ensures Inv(sites, s') && Keeps(s, s')
  {
    assert PcOk(sites, s, t, PcOf(s, t));
    forall site ensures TrkOk(sites, s', site) && CatOk(sites, s', site) {
      assert TrkOk(sites, s, site) && CatOk(sites, s, site);
    }
    FrameInv(sites, s, s', t);
  }

  lemma PercettoInitKeepsInv(sites: Sites, s: State, t: Thread, ok: bool)
    requires Inv(sites, s) && (PcOf(s, t).InitRun? || PcOf(s, t).InitStore?)
    ensures Inv(sites, Step(sites, s, t, ok)) && Keeps(s, Step(sites, s, t, ok))
  {
    var s' := Step(sites, s, t, ok);
    assert PcOk(sites, s, t, PcOf(s, t));
    forall site ensures TrkOk(sites, s', site) && CatOk(sites, s', site) {
      assert TrkOk(sites, s, site) && CatOk(sites, s, site);
    }
    FrameInv(sites, s, s', t);
  }

  lemma InitKeepsInv(sites: Sites, s: State, t: Thread, ok: bool)
    requires Inv(sites, s) && InInit(PcOf(s, t))
    ensures Inv(sites, Step(sites, s, t, ok)) && Keeps(s, Step(sites, s, t, ok))
  {
    var s' := Step(sites, s, t, ok);
    assert PcOk(sites, s, t, PcOf(s, t));
    if PcOf(s, t).InitRun? || PcOf(s, t).InitStore? {
      PercettoInitKeepsInv(sites, s, t, ok);
    } else {
      QuietFrame(sites, s, s', t);
    }
  }

  lemma CounterKeepsInv(sites: Sites, s: State, t: Thread, ok: bool)
    requires Inv(sites, s) && PcOf(s, t).MakeCounter?
    ensures Inv(sites, Step(sites, s, t, ok)) && Keeps(s, Step(sites, s, t, ok))
  {
    var s' := Step(sites, s, t, ok);
    assert PcOk(sites, s, t, PcOf(s, t));
    var name := sites(PcOf(s, t).site).name.value;
    TrackKeepsAnswers(s.tables, name);
    TrackGetsFixed(s.tables, name);
    forall site ensures TrkOk(sites, s', site) && CatOk(sites, s', site) {
      assert TrkOk(sites, s, site) && CatOk(sites, s, site);
    }
    FrameInv(sites, s, s', t);
  }

  lemma CategoryKeepsInv(sites: Sites, s: State, t: Thread, ok: bool)
    requires Inv(sites, s) && PcOf(s, t).MakeCategory?
    ensures Inv(sites, Step(sites, s, t, ok)) && Keeps(s, Step(sites, s, t, ok))
  {
    var s' := Step(sites, s, t, ok);
    assert PcOk(sites, s, t, PcOf(s, t));
    var w := sites(PcOf(s, t).site).w;
    CategoryKeepsAnswers(s.tables, w);
    AskingFixes(s.tables, w);
    forall site ensures TrkOk(sites, s', site) && CatOk(sites, s', site) {
      assert TrkOk(sites, s, site) && CatOk(sites, s, site);
    }
    FrameInv(sites, s, s', t);
  }

  lemma StoreKeepsInv(sites: Sites, s: State, t: Thread, ok: bool)
    requires Inv(sites, s) && (PcOf(s, t).StoreTrk? || PcOf(s, t).StoreCat?)
    ensures Inv(sites, Step(sites, s, t, ok)) && Keeps(s, Step(sites, s, t, ok))
  {
    var s' := Step(sites, s, t, ok);
    assert PcOk(sites, s, t, PcOf(s, t));
    forall site ensures TrkOk(sites, s', site) && CatOk(sites, s', site) {
      assert TrkOk(sites, s, site) && CatOk(sites, s, site);
    }
    assert TrkOk(sites, s, PcOf(s, t).site) && CatOk(sites, s, PcOf(s, t).site);
    FrameInv(sites, s, s', t);
  }

  lemma LockKeepsInv(sites: Sites, s: State, t: Thread, ok: bool)
    requires Inv(sites, s) && (PcOf(s, t).Lock? || PcOf(s, t).Unlock?)
    ensures Inv(sites, Step(sites, s, t, ok)) && Keeps(s, Step(sites, s, t, ok))
  {
    var s' := Step(sites, s, t, ok);
    assert PcOk(sites, s, t, PcOf(s, t));
    assert TrkOk(sites, s, PcOf(s, t).site);
    QuietFrame(sites, s, s', t);
  }

  lemma LoadKeepsInv(sites: Sites, s: State, t: Thread, ok: bool)
    requires Inv(sites, s) && !InInit(PcOf(s, t)) && !Creating(PcOf(s, t))
    requires !PcOf(s, t).Lock? && !PcOf(s, t).Unlock?
    ensures Inv(sites, Step(sites, s, t, ok)) && Keeps(s, Step(sites, s, t, ok))
  {
    LoadStep(sites, s, t, ok);
    QuietFrame(sites, s, Step(sites, s, t, ok), t);
  }

  lemma LoadStep(sites: Sites, s: State, t: Thread, ok: bool)
    requires PcOk(sites, s, t, PcOf(s, t)) && !InInit(PcOf(s, t)) && !Creating(PcOf(s, t))
    requires !PcOf(s, t).Lock? && !PcOf(s, t).Unlock?
    ensures var s' := Step(sites, s, t, ok);
      && PcOk(sites, s', t, PcOf(s', t)) && (forall t' :: t' != t ==> PcOf(s', t') == PcOf(s, t'))
      && s'.lock == s.lock && s'.tables == s.tables && s'.cats == s.cats && s'.trks == s.trks && s'.inits == s.inits
  {
  }

  lemma AfterKeepsInv(sites: Sites, s: State, act: Action)
    requires Inv(sites, s) && Enabled(s, act)
    ensures Inv(sites, After(sites, s, act)) && Keeps(s, After(sites, s, act))
  {
    if act.Do? {
      var pc := PcOf(s, act.t);
      if InInit(pc) { InitKeepsInv(sites, s, act.t, act.ok); }
      else if pc.MakeCounter? { CounterKeepsInv(sites, s, act.t, act.ok); }
      else if pc.MakeCategory? { CategoryKeepsInv(sites, s, act.t, act.ok); }
      else if Creating(pc) { StoreKeepsInv(sites, s, act.t, act.ok); }
      else if pc.Lock? || pc.Unlock? { LockKeepsInv(sites, s, act.t, act.ok); }
      else { LoadKeepsInv(sites, s, act.t, act.ok); }
    } else {
      assert PcOk(sites, s, act.t, PcOf(s, act.t));
      QuietFrame(sites, s, After(sites, s, act), act.t);
    }
  }

  // ---------------------------------------------------------------- runs

  lemma ActionAt(sites: Sites, run: seq<State>, i: nat) returns (act: Action)
    requires IsRun(sites, run) && i < |run| - 1
    ensures Enabled(run[i], act) && run[i+1] == After(sites, run[i], act)
  {
    assert StepAt(sites, run, i);
    act :| Enabled(run[i], act) && run[i+1] == After(sites, run[i], act);
  }

  lemma KeepsTransitively(s: State, s': State, s'': State)
    requires Keeps(s, s') && Keeps(s', s'')
    ensures Keeps(s, s'')
  {
  }

  lemma NextKeepsInv(sites: Sites, run: seq<State>, i: nat)
    requires IsRun(sites, run) && i < |run| - 1 && Inv(sites, run[i])
    ensures Inv(sites, run[i+1]) && Keeps(run[i], run[i+1])
  {
    var act := ActionAt(sites, run, i);
    AfterKeepsInv(sites, run[i], act);
  }

  lemma {:induction false} InvAlways(sites: Sites, run: seq<State>, n: nat)
    requires IsRun(sites, run) && n < |run|
    ensures Inv(sites, run[n])
  {
    if n == 0 {
      InitialInv(sites);
    } else {
      InvAlways(sites, run, n - 1);
      NextKeepsInv(sites, run, n - 1);
    }
  }

  lemma NextKeeps(sites: Sites, run: seq<State>, i: nat)
    requires IsRun(sites, run) && i < |run| - 1
    ensures Keeps(run[i], run[i+1])
  {
    InvAlways(sites, run, i);
    NextKeepsInv(sites, run, i);
  }

  lemma {:induction false} KeepsAlong(sites: Sites, run: seq<State>, n: nat, m: nat)
    requires IsRun(sites, run) && n <= m < |run|
    ensures Keeps(run[n], run[m])
    decreases m
  {
    if n < m {
      KeepsAlong(sites, run, n, m - 1);
      NextKeeps(sites, run, m - 1);
      KeepsTransitively(run[n], run[m-1], run[m]);
    }
  }

  /** PERCETTO_INIT runs at most once, and no thread creates anything before it has. */
  lemma InitsOnce(sites: Sites, run: seq<State>, n: nat, t: Thread)
    requires IsRun(sites, run) && n < |run|
    ensures run[n].inits <= 1
    ensures Creating(PcOf(run[n], t)) ==> run[n].tables.status != NotStarted && run[n].inits == 1
  {
    InvAlways(sites, run, n);
    assert PcOk(sites, run[n], t, PcOf(run[n], t));
  }

  /** The mutex excludes: no two threads are inside what it protects. */
  lemma MutualExclusion(sites: Sites, run: seq<State>, n: nat, t: Thread, t': Thread)
    requires IsRun(sites, run) && n < |run| && Holding(PcOf(run[n], t)) && Holding(PcOf(run[n], t'))
    ensures t == t'
  {
    InvAlways(sites, run, n);
    assert PcOk(sites, run[n], t, PcOf(run[n], t)) && PcOk(sites, run[n], t', PcOf(run[n], t'));
  }

  /** Once a category pointer is published at a call site, the pair of pointers is final. */
  lemma PublishedPairIsFinal(sites: Sites, run: seq<State>, n: nat, m: nat, site: Site)
    requires IsRun(sites, run) && n <= m < |run| && site in run[n].cats
    ensures Get(run[m].cats, site) == Get(run[n].cats, site)
    ensures Get(run[m].trks, site) == Get(run[n].trks, site)
  {
    KeepsAlong(sites, run, n, m);
  }

  /** Whatever two threads have loaded at a call site when they trace, at whatever moments of a
      run: never a null category, the same category, and the same track. */
  lemma EveryoneSeesTheSamePair(sites: Sites, run: seq<State>, n: nat, m: nat, t: Thread, t': Thread)
    requires IsRun(sites, run) && n < |run| && m < |run|
    requires PcOf(run[n], t).Tracing? && PcOf(run[m], t').Tracing? && PcOf(run[n], t).site == PcOf(run[m], t').site
    ensures PcOf(run[n], t).cat.Some? && PcOf(run[n], t).cat == PcOf(run[m], t').cat
    ensures PcOf(run[n], t).trk == PcOf(run[m], t').trk
  {
    InvAlways(sites, run, n);
    InvAlways(sites, run, m);
    assert PcOk(sites, run[n], t, PcOf(run[n], t)) && PcOk(sites, run[m], t', PcOf(run[m], t'));
    if n <= m { KeepsAlong(sites, run, n, m); } else { KeepsAlong(sites, run, m, n); }
  }

  /** And across call sites: equal tags lead to one category, equal names to one track, different
      names never share a track. */
  lemma EqualSitesShare(sites: Sites, run: seq<State>, n: nat, site: Site, site': Site)
    requires IsRun(sites, run) && n < |run| && site in run[n].cats && site' in run[n].cats
    ensures sites(site).w == sites(site').w ==> run[n].cats[site] == run[n].cats[site']
    ensures sites(site).name == sites(site').name ==> Get(run[n].trks, site) == Get(run[n].trks, site')
    ensures site in run[n].trks && site' in run[n].trks && run[n].trks[site] == run[n].trks[site'] ==>
      sites(site).name == sites(site').name
  {
    InvAlways(sites, run, n);
    assert CatOk(sites, run[n], site) && CatOk(sites, run[n], site');
    assert TrkOk(sites, run[n], site) && TrkOk(sites, run[n], site');
  }

  // ---------------------------------------------------------------- the outcome of initialisation

  /** The step from state n is thread t's call of PERCETTO_INIT, with this outcome. */
  ghost predicate InitsAt(sites: Sites, run: seq<State>, n: nat, t: Thread, ok: bool) {
    && n + 1 < |run| && PcOf(run[n], t).InitRun?
    && run[n+1] == After(sites, run[n], Do(t, ok))
  }

  lemma InitStoreStep(sites: Sites, s: State, act: Action, t: Thread)
    requires Enabled(s, act) && PcOf(After(sites, s, act), t).InitStore?
    ensures if PcOf(s, t).InitStore? then PcOf(After(sites, s, act), t) == PcOf(s, t)
            else PcOf(s, t).InitRun? && act == Do(t, PcOf(After(sites, s, act), t).ok)
  {
  }

  /** Where an outcome that is about to be stored comes from. */
  lemma {:induction false} OutcomeIsFromInit(sites: Sites, run: seq<State>, m: nat, t: Thread) returns (n: nat)
    requires IsRun(sites, run) && m < |run| && PcOf(run[m], t).InitStore?
    ensures n < m && InitsAt(sites, run, n, t, PcOf(run[m], t).ok)
    decreases m
  {
    assert m > 0;
    n := m - 1;
    var act := ActionAt(sites, run, n);
    InitStoreStep(sites, run[n], act, t);
    if PcOf(run[n], t).InitStore? {
      n := OutcomeIsFromInit(sites, run, n, t);
    }
  }

  lemma StatusStep(sites: Sites, s: State, act: Action)
    requires Inv(sites, s) && Enabled(s, act)
    requires s.tables.status == NotStarted && After(sites, s, act).tables.status != NotStarted
    ensures act.Do? && PcOf(s, act.t).InitStore?
    ensures After(sites, s, act).tables.status == if PcOf(s, act.t).ok then Ok else Error
  {
    assert PcOk(sites, s, act.t, PcOf(s, act.t));
  }

  /** Once the status is decided it is Ok if and only if the call of PERCETTO_INIT, which there
      has then been, succeeded. */
  lemma {:induction false} StatusIsOutcome(sites: Sites, run: seq<State>, m: nat)
      returns (n: nat, t: Thread, ok: bool)
    requires IsRun(sites, run) && m < |run| && run[m].tables.status != NotStarted
    ensures n < m && InitsAt(sites, run, n, t, ok)
    ensures run[m].tables.status == if ok then Ok else Error
    decreases m
  {
    assert m > 0;
    InvAlways(sites, run, m - 1);
    var act := ActionAt(sites, run, m - 1);
    AfterKeepsInv(sites, run[m-1], act);
    if run[m-1].tables.status != NotStarted {
      n, t, ok := StatusIsOutcome(sites, run, m - 1);
    } else {
      StatusStep(sites, run[m-1], act);
      t, ok := act.t, PcOf(run[m-1], act.t).ok;
      n := OutcomeIsFromInit(sites, run, m - 1, t);
    }
  }

  // ---------------------------------------------------------------- progress

  /** How many of its own steps a thread is from the end of its passage, at most. */
  function Rank(pc: Pc): nat {
    match pc
    case LoadCat(_) => 16
    case CheckStatus(_) => 15
    case InitLock(_) => 14
    case InitCheck(_) => 13
    case InitRun(_) => 12
    case InitStore(_, _) => 11
    case InitUnlock(_) => 10
    case Lock(_) => 9
    case MakeCounter(_) => 8
    case StoreTrk(_, _) => 7
    case MakeCategory(_) => 6
    case StoreCat(_, _) => 5
    case Unlock(_) => 4
    case ReloadCat(_) => 3
    case ReloadTrk(_, _) => 2
    case Tracing(_, _, _) => 1
    case Outside => 0
  }

  /** The thread waits for the mutex. */
  predicate Waits(s: State, t: Thread) {
    (PcOf(s, t).InitLock? || PcOf(s, t).Lock?) && s.lock.Some?
  }

  /** Every step of a thread brings it nearer to the end unless it waits for the mutex, and nobody
      else moves it. A thread that holds the mutex never waits. */
  lemma StepsLead(sites: Sites, s: State, t: Thread, ok: bool)
    requires Inv(sites, s) && !PcOf(s, t).Outside?
    ensures if Waits(s, t) then Step(sites, s, t, ok) == s
            else Rank(PcOf(Step(sites, s, t, ok), t)) < Rank(PcOf(s, t))
    ensures forall t' :: t' != t ==> PcOf(Step(sites, s, t, ok), t') == PcOf(s, t')
    ensures Waits(s, t) ==> s.lock != Some(t)
  {
    assert PcOk(sites, s, t, PcOf(s, t));
  }

  function Last(run: seq<State>): State
    requires |run| > 0
  {
    run[|run|-1]
  }

  lemma Extend(sites: Sites, run: seq<State>, act: Action) returns (run': seq<State>)
    requires IsRun(sites, run) && Enabled(Last(run), act)
    ensures IsRun(sites, run') && run' == run + [After(sites, Last(run), act)]
  {
    run' := run + [After(sites, Last(run), act)];
    forall i | 0 <= i < |run'| - 1 ensures StepAt(sites, run', i) {
      if i < |run| - 1 {
        assert StepAt(sites, run, i);
        assert run'[i] == run[i] && run'[i+1] == run[i+1];
      } else {
        assert Enabled(run'[i], act) && run'[i+1] == After(sites, run'[i], act);
      }
    }
  }

  /** A thread that does not find the mutex taken by another gets through on its own, in at most
      as many steps as its rank. */
  lemma {:induction false} GetsThrough(sites: Sites, run: seq<State>, t: Thread, ok: bool) returns (run': seq<State>)
    requires IsRun(sites, run) && (Last(run).lock.None? || Last(run).lock == Some(t))
    ensures IsRun(sites, run') && run <= run' && |run'| <= |run| + Rank(PcOf(Last(run), t))
    ensures PcOf(Last(run'), t).Outside? && Last(run').lock.None?
    decreases Rank(PcOf(Last(run), t))
  {
    var s := Last(run);
    InvAlways(sites, run, |run| - 1);
    assert PcOk(sites, s, t, PcOf(s, t));
    if PcOf(s, t).Outside? {
      run' := run;
    } else {
      StepsLead(sites, s, t, ok);
      var next := Extend(sites, run, Do(t, ok));
      LockStays(sites, s, t, ok);
      run' := GetsThrough(sites, next, t, ok);
    }
  }

  lemma LockStays(sites: Sites, s: State, t: Thread, ok: bool)
    requires Inv(sites, s) && (s.lock.None? || s.lock == Some(t))
    ensures Step(sites, s, t, ok).lock.None? || Step(sites, s, t, ok).lock == Some(t)
  {
    assert PcOk(sites, s, t, PcOf(s, t));
  }

  /** Nothing deadlocks: from every reachable state every thread can get through, if need be
      after the thread that holds the mutex. */
  lemma NoDeadlock(sites: Sites, run: seq<State>, t: Thread, ok: bool) returns (run': seq<State>)
    requires IsRun(sites, run)
    ensures IsRun(sites, run') && run <= run' && |run'| <= |run| + 32
    ensures PcOf(Last(run'), t).Outside? && Last(run').lock.None?
  {
    var freed := run;
    if Last(run).lock.Some? {
      freed := GetsThrough(sites, run, Last(run).lock.value, ok);
    }
    run' := GetsThrough(sites, freed, t, ok);
  }

  // ---------------------------------------------------------------- what a passage gives

  /** What a thread has loaded when it traces is the answer of the memo tables for its site: never
      null for the category, and for the track null exactly when the site has no name or its name
      got no track. */
  lemma TracedPairIsAnswer(sites: Sites, run: seq<State>, n: nat, t: Thread)
    requires IsRun(sites, run) && n < |run| && PcOf(run[n], t).Tracing?
    ensures var Tracing(site, cat, trk) := PcOf(run[n], t);
      && run[n].tables.status != NotStarted
      && cat == Some(CategoryFor(run[n].tables, sites(site).w))
      && trk == (if sites(site).name.None? then None else TrackFor(run[n].tables, sites(site).name.value))
  {
    InvAlways(sites, run, n);
    assert PcOk(sites, run[n], t, PcOf(run[n], t));
    assert CatOk(sites, run[n], PcOf(run[n], t).site);
  }

  /** A thread on its way through a call site, up to the point where it traces. */
  predicate OnTheWay(pc: Pc, site: Site) {
    match pc
    case Outside => false
    case InitLock(back) => back == Some(site)
    case InitCheck(back) => back == Some(site)
    case InitRun(back) => back == Some(site)
    case InitStore(back, _) => back == Some(site)
    case InitUnlock(back) => back == Some(site)
    case Tracing(_, _, _) => false
    case _ => pc.site == site
  }

  lemma WayStep(sites: Sites, s: State, act: Action, t: Thread, site: Site)
    requires Enabled(s, act) && OnTheWay(PcOf(s, t), site)
    ensures var pc := PcOf(After(sites, s, act), t);
      OnTheWay(pc, site) || (pc.Tracing? && pc.site == site)
  {
  }

  /** A thread that has reached a call site traces there before it is through. */
  lemma {:induction false} PassageTraces(sites: Sites, run: seq<State>, n: nat, m: nat, t: Thread, site: Site)
      returns (p: nat)
    requires IsRun(sites, run) && n < m < |run| && OnTheWay(PcOf(run[n], t), site) && PcOf(run[m], t).Outside?
    ensures n < p < m && PcOf(run[p], t).Tracing? && PcOf(run[p], t).site == site
    decreases m - n
  {
    var act := ActionAt(sites, run, n);
    WayStep(sites, run[n], act, t, site);
    if PcOf(run[n+1], t).Tracing? {
      p := n + 1;
    } else {
      p := PassageTraces(sites, run, n + 1, m, t, site);
    }
  }

  /** Every reachable state in which a thread is free to reach a call site is continued by a run in
      which it does and traces there, with the answer of the memo tables. */
  lemma ReachingTraces(sites: Sites, run: seq<State>, t: Thread, site: Site, ok: bool)
      returns (run': seq<State>, p: nat)
    requires IsRun(sites, run) && Enabled(Last(run), Reach(t, site))
    ensures IsRun(sites, run') && run < run' && run'[|run|] == After(sites, Last(run), Reach(t, site))
    ensures |run| < p < |run'| && PcOf(run'[p], t).Tracing? && PcOf(run'[p], t).site == site
    ensures PcOf(run'[p], t).cat == Some(CategoryFor(run'[p].tables, sites(site).w))
  {
    var next := Extend(sites, run, Reach(t, site));
    run' := NoDeadlock(sites, next, t, ok);
    assert run'[|run|] == next[|run|];
    assert !PcOf(run'[|run|], t).Outside?;
    p := PassageTraces(sites, run', |run|, |run'| - 1, t, site);
    TracedPairIsAnswer(sites, run', p, t);
  }
}
