/** What every interleaving keeps of the category array and the lock-free group array. */
module Registry {
  import opened Common
  import opened Machine
  import opened Slots

  // ---------------------------------------------------------------- invariant

  ghost predicate Shape(a: Arrays) {
    && |a.groups| == MAX_GROUP_CATEGORIES
    && |a.batch| == |a.categories|
    && a.count <= |a.categories| <= MAX_CATEGORIES
  }

  ghost predicate InGroups(a: Arrays, c: Category) {
    Stored(a.groups, c)
  }

  ghost predicate NoDuplicates(a: Arrays) {
    && Distinct(a.categories)
    && NoRepeats(a.groups)
    && (forall c :: c in a.categories ==> !InGroups(a, c))
  }

  ghost predicate CategoriesNamed(x: Exts, a: Arrays) {
    && (forall i :: 0 <= i < |a.categories| ==>
          && x(a.categories[i]).name.Some?
          && a.categories[i] in a.iids && a.iids[a.categories[i]] == i + 1)
    && (forall c :: c in a.iids ==> c in a.categories)
  }

  /** Handed to a registration function, not stored anywhere yet. */
  ghost predicate Pending(a: Arrays, c: Category) {
    c in a.used && c !in a.categories && !InGroups(a, c)
  }

  function Todo(a: Arrays): seq<Category> {
    match a.init
    case NoInit => []
    case AddCategories(todo) => todo
    case AddGroups(todo, _) => todo
  }

  ghost predicate InitOk(a: Arrays) {
    && Distinct(Todo(a))
    && (forall c :: c in Todo(a) ==> Pending(a, c))
    && (!a.init.AddCategories? ==> a.count == |a.categories|)
    && (a.init.AddGroups? ==> FilledTo(a.groups, a.init.i))
  }

  ghost predicate ArraysOk(x: Exts, a: Arrays) {
    && Shape(a)
    && Compact(a.groups)
    && NoDuplicates(a)
    && CategoriesNamed(x, a)
    && InitOk(a)
    && (forall c :: c in a.categories || InGroups(a, c) ==> c in a.used)
  }

  ghost predicate AdderOk(a: Arrays, g: Category, i: nat) {
    Pending(a, g) && g !in Todo(a) && FilledTo(a.groups, i)
  }

  ghost predicate AddersOk(s: State) {
    && (forall t :: PcOf(s, t).Adding? ==> AdderOk(s.a, PcOf(s, t).g, PcOf(s, t).i))
    && (forall t, t' :: t != t' && PcOf(s, t).Adding? && PcOf(s, t').Adding? ==> PcOf(s, t).g != PcOf(s, t').g)
  }

  ghost predicate UpdateOk(a: Arrays, u: Update) {
    match u
    case Slot(i) => FilledTo(a.groups, i)
    case Reading(i, g, j, sum) => i < |a.groups| && a.groups[i] == Some(g) && j <= MAX_GROUP_SIZE
  }

  /** A registrant updates the slot it has just filled. */
  ghost predicate RefreshOk(a: Arrays, u: Update) {
    UpdateOk(a, u) && (u.Slot? ==> u.i < |a.groups| && a.groups[u.i].Some?)
  }

  /** The group update a session callback is in, if any. */
  function SessionUpdate(pc: SessionPc): Option<Update> {
    match pc
    case SetupScan(_, _, u) => Some(u)
    case StopScan(u) => Some(u)
    case _ => None
  }

  ghost predicate UpdatesOk(s: State) {
    && (forall k :: 0 <= k < |s.sessions| && SessionUpdate(s.sessions[k].pc).Some? ==>
          UpdateOk(s.a, SessionUpdate(s.sessions[k].pc).value))
    && (forall t :: PcOf(s, t).Refreshing? ==> RefreshOk(s.a, PcOf(s, t).u))
  }

  ghost predicate RegistryInv(x: Exts, s: State) {
    && |s.sessions| == MAX_SESSIONS
    && ArraysOk(x, s.a)
    && AddersOk(s)
    && UpdatesOk(s)
  }

  /** What only grows: the category array, the count, the filled slots and the history. */
  ghost predicate Grows(a: Arrays, a': Arrays) {
    && a.categories <= a'.categories
    && a.batch <= a'.batch
    && a.count <= a'.count
    && KeepsSlots(a.groups, a'.groups)
    && a.used <= a'.used
  }

  // ---------------------------------------------------------------- the arrays

  lemma InitialRegistry(x: Exts)
    ensures RegistryInv(x, Initial())
  {
  }

  lemma GrowsKeeps(a: Arrays, a': Arrays)
    requires Grows(a, a')
    ensures forall i :: FilledTo(a.groups, i) ==> FilledTo(a'.groups, i)
    ensures forall u :: UpdateOk(a, u) ==> UpdateOk(a', u)
    ensures forall u :: RefreshOk(a, u) ==> RefreshOk(a', u)
  {
  }

  /** Same arrays, another position in the init call or another set of used objects. */
  lemma SameSlots(a: Arrays, a': Arrays)
    requires a'.categories == a.categories && a'.groups == a.groups && a.used <= a'.used
    ensures forall c :: InGroups(a', c) == InGroups(a, c)
    ensures forall c :: Pending(a, c) ==> Pending(a', c)
    ensures NoDuplicates(a) ==> NoDuplicates(a')
    ensures forall i :: FilledTo(a'.groups, i) == FilledTo(a.groups, i)
  {
    forall c ensures InGroups(a', c) == InGroups(a, c) {
    }
  }

  /** A successful compare-and-swap on the first empty slot. */
  lemma FillGroup(a: Arrays, a': Arrays, i: nat, g: Category)
    requires Compact(a.groups) && FilledTo(a.groups, i) && i < |a.groups| && a.groups[i].None?
    requires a'.groups == a.groups[i := Some(g)] && a'.categories == a.categories && a'.used == a.used
    requires NoDuplicates(a) && Pending(a, g)
    ensures Compact(a'.groups) && NoDuplicates(a') && KeepsSlots(a.groups, a'.groups)
    ensures forall c :: InGroups(a', c) <==> InGroups(a, c) || c == g
    ensures forall c :: Pending(a', c) <==> Pending(a, c) && c != g
  {
    FillSlot(a.groups, i, g);
  }

  lemma StoreKeepsArrays(x: Exts, a: Arrays, c: Category, rest: seq<Category>)
    requires ArraysOk(x, a) && a.init == AddCategories([c] + rest)
    requires x(c).name.Some? && |a.categories| < MAX_CATEGORIES
    ensures ArraysOk(x, StoreCategory(a, c, rest))
    ensures forall d :: Pending(StoreCategory(a, c, rest), d) <==> Pending(a, d) && d != c
  {
    var a' := StoreCategory(a, c, rest);
    assert Todo(a) == [c] + rest && Todo(a)[0] == c;
    assert Pending(a, c);
    assert a'.categories == a.categories + [c];
    forall d ensures InGroups(a', d) == InGroups(a, d) {
    }
    forall d ensures Pending(a', d) <==> Pending(a, d) && d != c {
    }
    forall d | d in rest ensures Pending(a', d) {
      var i :| 0 <= i < |rest| && rest[i] == d;
      assert Todo(a)[i + 1] == d;
    }
    forall i, j | 0 <= i < j < |rest| ensures rest[i] != rest[j] {
      assert Todo(a)[i + 1] == rest[i] && Todo(a)[j + 1] == rest[j];
    }
  }

  /** One step of an init call. What was pending and not on its list stays pending. */
  lemma InitKeepsArrays(x: Exts, a: Arrays)
    requires ArraysOk(x, a)
    ensures ArraysOk(x, StepInit(x, a)) && Grows(a, StepInit(x, a))
    ensures forall c :: c in Todo(StepInit(x, a)) ==> c in Todo(a)
    ensures forall c :: Pending(a, c) && c !in Todo(a) ==> Pending(StepInit(x, a), c)
  {
    var a' := StepInit(x, a);
    var todo := Todo(a);
    if todo != [] {
      assert todo == [todo[0]] + todo[1..];
    }
    if a.init.AddGroups? && todo != [] && a.init.i < |a.groups| && a.groups[a.init.i].None? {
      FillGroup(a, a', a.init.i, todo[0]);
    } else if a.init.AddCategories? && a'.categories != a.categories {
      StoreKeepsArrays(x, a, todo[0], todo[1..]);
    } else {
      SameSlots(a, a');
    }
  }

  lemma BeginInitKeepsArrays(x: Exts, a: Arrays, list: seq<Category>)
    requires ArraysOk(x, a) && a.init == NoInit && Distinct(list) && forall c :: c in list ==> c !in a.used
    ensures ArraysOk(x, a.(init := AddCategories(list), inits := a.inits + 1, used := a.used + set c | c in list))
  {
    SameSlots(a, a.(init := AddCategories(list), inits := a.inits + 1, used := a.used + set c | c in list));
  }

  // ---------------------------------------------------------------- the whole state

  lemma UpdateStaysOk(x: Exts, s: State, u: Update, scan: bool)
    requires Compact(s.a.groups) && UpdateOk(s.a, u) && AfterUpdate(x, s.a, s.masks, u, scan).Some?
    ensures UpdateOk(s.a, AfterUpdate(x, s.a, s.masks, u, scan).value)
    ensures !scan ==> RefreshOk(s.a, AfterUpdate(x, s.a, s.masks, u, scan).value)
  {
  }

  lemma SessionKeepsUpdate(x: Exts, s: State, k: nat)
    requires RegistryInv(x, s) && k < |s.sessions|
    ensures var pc := StepInstance(x, s.a, s.masks, s.sessions[k]).pc;
            SessionUpdate(pc).Some? ==> UpdateOk(s.a, SessionUpdate(pc).value)
  {
    var u := SessionUpdate(s.sessions[k].pc);
    if u.Some? && AfterUpdate(x, s.a, s.masks, u.value, true).Some? {
      UpdateStaysOk(x, s, u.value, true);
    }
  }

  lemma SessionKeepsRegistry(x: Exts, s: State, k: nat)
    requires RegistryInv(x, s) && k < |s.sessions|
    ensures RegistryInv(x, StepSession(x, s, k))
  {
    var s' := StepSession(x, s, k);
    SessionKeepsUpdate(x, s, k);
    forall t ensures PcOf(s', t) == PcOf(s, t) {
    }
  }

  lemma FillKeepsRegistry(x: Exts, s: State, t: Thread, g: Category, i: nat)
    requires RegistryInv(x, s) && PcOf(s, t) == Adding(g, i) && i < |s.a.groups| && s.a.groups[i].None?
    ensures RegistryInv(x, StepAdding(s, t, g, i)) && Grows(s.a, StepAdding(s, t, g, i).a)
  {
    var s' := StepAdding(s, t, g, i);
    forall t' ensures PcOf(s', t') == if t' == t then Refreshing(Slot(i)) else PcOf(s, t') {
    }
    assert AdderOk(s.a, g, i);
    FillGroup(s.a, s'.a, i, g);
    GrowsKeeps(s.a, s'.a);
    assert ArraysOk(x, s'.a);
    assert AddersOk(s');
    assert UpdatesOk(s');
  }

  lemma AddingKeepsRegistry(x: Exts, s: State, t: Thread, g: Category, i: nat)
    requires RegistryInv(x, s) && PcOf(s, t) == Adding(g, i)
    ensures RegistryInv(x, StepAdding(s, t, g, i)) && Grows(s.a, StepAdding(s, t, g, i).a)
  {
    if i < |s.a.groups| && s.a.groups[i].None? {
      FillKeepsRegistry(x, s, t, g, i);
    } else {
      var s' := StepAdding(s, t, g, i);
      forall t' | t' != t ensures PcOf(s', t') == PcOf(s, t') {
      }
      assert AdderOk(s.a, g, i);
      assert AddersOk(s');
    }
  }

  /** A step of a thread that is not adding a group leaves the arrays alone. */
  lemma OtherThreadKeepsRegistry(x: Exts, s: State, s': State, t: Thread)
    requires RegistryInv(x, s) && s'.a == s.a && s'.sessions == s.sessions
    requires forall t' :: t' != t ==> PcOf(s', t') == PcOf(s, t')
    requires !PcOf(s', t).Adding?
    requires PcOf(s', t).Refreshing? ==> RefreshOk(s.a, PcOf(s', t).u)
    ensures RegistryInv(x, s')
  {
    assert AddersOk(s');
  }

  lemma ThreadKeepsRegistry(x: Exts, s: State, t: Thread)
    requires RegistryInv(x, s)
    ensures RegistryInv(x, StepThread(x, s, t)) && Grows(s.a, StepThread(x, s, t).a)
  {
    var s' := StepThread(x, s, t);
    match PcOf(s, t)
    case Adding(g, i) => AddingKeepsRegistry(x, s, t, g, i);
    case Refreshing(u) =>
      if AfterUpdate(x, s.a, s.masks, u, false).Some? { UpdateStaysOk(x, s, u, false); }
      OtherThreadKeepsRegistry(x, s, s', t);
    case _ =>
      if PcOf(s, t) != Free { OtherThreadKeepsRegistry(x, s, s', t); }
  }

  lemma InitKeepsRegistry(x: Exts, s: State)
    requires RegistryInv(x, s)
    ensures RegistryInv(x, s.(a := StepInit(x, s.a)))
  {
    var s' := s.(a := StepInit(x, s.a));
    InitKeepsArrays(x, s.a);
    GrowsKeeps(s.a, s'.a);
    forall t ensures PcOf(s', t) == PcOf(s, t) {
    }
  }

  lemma BeginKeepsRegistry(x: Exts, s: State, act: Action)
    requires RegistryInv(x, s) && Enabled(s, act) && (act.BeginInit? || act.BeginRegister?)
    ensures RegistryInv(x, Do(x, s, act)) && Grows(s.a, Do(x, s, act).a)
  {
    var s' := Do(x, s, act);
    SameSlots(s.a, s'.a);
    GrowsKeeps(s.a, s'.a);
    match act
    case BeginInit(list) =>
      BeginInitKeepsArrays(x, s.a, list);
      forall t ensures PcOf(s', t) == PcOf(s, t) {
      }
      assert AddersOk(s');
    case BeginRegister(t, g) =>
      forall t' ensures PcOf(s', t') == if t' == t then Adding(g, 0) else PcOf(s, t') {
      }
      assert ArraysOk(x, s'.a);
      assert AddersOk(s');
    case _ =>
  }

  lemma NextKeepsRegistry(x: Exts, s: State, act: Action)
    requires RegistryInv(x, s) && Enabled(s, act)
    ensures RegistryInv(x, Do(x, s, act)) && Grows(s.a, Do(x, s, act).a)
  {
    var s' := Do(x, s, act);
    match act
    case DoInit =>
      InitKeepsRegistry(x, s);
      InitKeepsArrays(x, s.a);
    case DoSession(k) => SessionKeepsRegistry(x, s, k);
    case DoThread(t) => ThreadKeepsRegistry(x, s, t);
    case BeginInit(_) => BeginKeepsRegistry(x, s, act);
    case BeginRegister(_, _) => BeginKeepsRegistry(x, s, act);
    case BeginEvent(t, _) => OtherThreadKeepsRegistry(x, s, s', t);
    case EnterContext(t, _) => OtherThreadKeepsRegistry(x, s, s', t);
    case _ =>
      forall t ensures PcOf(s', t) == PcOf(s, t) {
      }
  }

  // ---------------------------------------------------------------- theorems over runs

  lemma {:induction false} RegistryAlways(x: Exts, run: seq<State>, n: nat)
    requires IsRun(x, run) && n < |run|
    ensures RegistryInv(x, run[n])
  {
    if n == 0 {
      InitialRegistry(x);
    } else {
      RegistryAlways(x, run, n - 1);
      var act := ActionAt(x, run, n - 1);
      NextKeepsRegistry(x, run[n-1], act);
    }
  }

  lemma ActionAt(x: Exts, run: seq<State>, n: nat) returns (act: Action)
    requires IsRun(x, run) && n + 1 < |run|
    ensures Enabled(run[n], act) && run[n+1] == Do(x, run[n], act)
  {
    assert StepAt(x, run, n);
    act :| Enabled(run[n], act) && run[n+1] == Do(x, run[n], act);
  }

  lemma GrowsTransitive(a: Arrays, b: Arrays, c: Arrays)
    requires Grows(a, b) && Grows(b, c)
    ensures Grows(a, c)
  {
  }

  lemma StepGrows(x: Exts, run: seq<State>, n: nat)
    requires IsRun(x, run) && n + 1 < |run|
    ensures Grows(run[n].a, run[n+1].a)
  {
    RegistryAlways(x, run, n);
    var act := ActionAt(x, run, n);
    NextKeepsRegistry(x, run[n], act);
  }

  /** Slots are write-once and the category array only grows, between any two states of a run. */
  lemma {:induction false} WriteOnce(x: Exts, run: seq<State>, m: nat, n: nat)
    requires IsRun(x, run) && m <= n < |run|
    ensures Grows(run[m].a, run[n].a)
  {
    if m < n {
      WriteOnce(x, run, m, n - 1);
      StepGrows(x, run, n - 1);
      GrowsTransitive(run[m].a, run[n-1].a, run[n].a);
    }
  }

  /** The step from state n to n + 1 is thread t's compare-and-swap of its group into slot i. */
  ghost predicate AddsAt(run: seq<State>, n: nat, t: Thread, g: Category, i: nat) {
    && n + 1 < |run|
    && PcOf(run[n], t) == Adding(g, i)
    && run[n+1] == StepAdding(run[n], t, g, i)
    && GroupAt(run[n].a, i).None? && GroupAt(run[n+1].a, i) == Some(g)
  }

  /** Successful registrants own distinct slots, and keep them. */
  lemma AddersOwnTheirSlots(x: Exts, run: seq<State>, m: nat, t: Thread, g: Category, i: nat,
                            n: nat, t': Thread, g': Category, i': nat)
    requires IsRun(x, run) && m < n
    requires AddsAt(run, m, t, g, i) && AddsAt(run, n, t', g', i')
    ensures i != i' && g != g'
    ensures GroupAt(run[n].a, i) == GroupAt(run[n+1].a, i) == Some(g)
  {
    WriteOnce(x, run, m + 1, n);
    WriteOnce(x, run, n, n + 1);
    RegistryAlways(x, run, n + 1);
  }

  /** A registration is refused only when every slot is taken, after one attempt at each. */
  lemma RefusedOnlyWhenFull(x: Exts, run: seq<State>, n: nat, t: Thread)
    requires IsRun(x, run) && n + 1 < |run|
    requires PcOf(run[n], t).Adding? && run[n+1] == StepThread(x, run[n], t) && PcOf(run[n+1], t) == Free
    ensures forall i :: 0 <= i < 32 ==> GroupAt(run[n].a, i).Some?
    ensures PcOf(run[n], t).i == MAX_GROUP_CATEGORIES
  {
    RegistryAlways(x, run, n);
    assert AdderOk(run[n].a, PcOf(run[n], t).g, PcOf(run[n], t).i);
  }

  /** A scan that stops at an empty slot has passed exactly the groups filled at that moment,
      each in the slot where every later state finds it. */
  lemma ScanSeesPrefix(x: Exts, run: seq<State>, n: nat, later: nat, k: nat, i: nat)
    requires IsRun(x, run) && n <= later < |run| && k < |run[n].sessions|
    requires SessionUpdate(run[n].sessions[k].pc) == Some(Slot(i)) && GroupAt(run[n].a, i).None?
    ensures forall j: nat :: GroupAt(run[n].a, j).Some? <==> j < i
    ensures forall j: nat :: j < i ==> GroupAt(run[later].a, j) == GroupAt(run[n].a, j)
  {
    RegistryAlways(x, run, n);
    WriteOnce(x, run, n, later);
    assert UpdateOk(run[n].a, Slot(i));
  }
}
