/** When a group's mask is the OR of its children's masks, although updates race. */
module GroupMasks {
  import opened Common
  import opened Machine
  import opened Registry
  import opened Slots
  import opened Provenance

  /** Whoever can be updating groups: a session callback or a registering thread. */
  datatype Actor = Session(k: nat) | Registrant(t: Thread)

  function UpdateOf(s: State, who: Actor): Option<Update> {
    match who
    case Session(k) => if k < |s.sessions| then SessionUpdate(s.sessions[k].pc) else None
    case Registrant(t) => if PcOf(s, t).Refreshing? then Some(PcOf(s, t).u) else None
  }

  /** The update is between its load of slot i and its store. */
  ghost predicate InFlight(s: State, who: Actor, i: nat) {
    UpdateOf(s, who).Some? && UpdateOf(s, who).value.Reading? && UpdateOf(s, who).value.i == i
  }

  /** What an update in flight has read so far is what it would read now. */
  ghost predicate UpToDate(x: Exts, s: State, who: Actor, i: nat)
    requires InFlight(s, who, i)
  {
    var u := UpdateOf(s, who).value;
    u.j <= MAX_GROUP_SIZE && u.sum == PartialSum(x, s.masks, u.g, u.j)
  }

  /** The callback will yet start an update of slot i. */
  ghost predicate SessionOwes(pc: SessionPc, i: nat) {
    match pc
    case SetupOr(_, _, _) => true
    case StopAnd(_, _, _, _) => true
    case SetupScan(_, _, u) => if u.Slot? then u.i <= i else u.i < i
    case StopScan(u) => if u.Slot? then u.i <= i else u.i < i
    case _ => false
  }

  ghost predicate Owes(s: State, who: Actor, i: nat) {
    match who
    case Session(k) => k < |s.sessions| && SessionOwes(s.sessions[k].pc, i)
    case Registrant(t) => PcOf(s, t) == Refreshing(Slot(i))
  }

  ghost predicate Owed(s: State, i: nat) {
    exists who: Actor :: Owes(s, who, i)
  }

  /** Slot i is under control: someone is still to update it, or whatever is about to be stored
      is right, or it is right already. */
  ghost predicate Fresh(x: Exts, s: State, i: nat) {
    GroupAt(s.a, i).Some? ==>
      || Owed(s, i)
      || ((forall who: Actor :: InFlight(s, who, i) ==> UpToDate(x, s, who, i))
          && ((exists who: Actor :: InFlight(s, who, i)) || MaskIsSum(x, s, i)))
  }

  ghost predicate MaskIsSum(x: Exts, s: State, i: nat)
    requires GroupAt(s.a, i).Some?
  {
    MaskOf(s.masks, GroupAt(s.a, i).value) == Sum(x, s.masks, GroupAt(s.a, i).value)
  }

  /** Nobody is updating slot i or bound to. */
  ghost predicate Quiet(s: State, i: nat) {
    !Owed(s, i) && forall who: Actor :: !InFlight(s, who, i)
  }

  // ---------------------------------------------------------------- stores and children

  /** The masks of objects that nobody has stored yet are empty. */
  ghost predicate UnstoredEmpty(s: State) {
    forall c: Category :: c !in s.a.categories && !InGroups(s.a, c) ==> MaskOf(s.masks, c) == {}
  }

  ghost predicate GroupInv(x: Exts, s: State) {
    ProvenanceInv(x, s) && UnstoredEmpty(s)
  }

  /** Named objects have bits only if they are registered categories. */
  lemma NamedKnown(x: Exts, s: State, c: Category, mask: Mask)
    requires WellFormed(x) && x(c).name.Some? && c !in s.a.categories && AllKnown(x, s, c, mask)
    ensures mask == {}
  {
    assert ChildrenOf(x, c) == {};
    assert forall k: nat :: Known(x, s, c, k) ==> c in s.a.categories;
  }

  ghost predicate SameNamed(x: Exts, masks: map<Category, Mask>, masks': map<Category, Mask>) {
    forall c: Category :: x(c).name.Some? ==> MaskOf(masks', c) == MaskOf(masks, c)
  }

  /** The store that ends an update leaves the masks of named objects alone. */
  lemma StoreKeepsNamed(x: Exts, s: State, who: Actor)
    requires WellFormed(x) && ProvenanceInv(x, s) && UpdateOf(s, who).Some?
    ensures SameNamed(x, s.masks, MasksAfterUpdate(s.masks, UpdateOf(s, who).value))
  {
    var u := UpdateOf(s, who).value;
    assert UpdateOk(s.a, u) && UpdateKnown(x, s, u) by {
      if who.Registrant? { assert ThreadKnown(x, s, PcOf(s, who.t)); }
    }
    if u.Reading? && x(u.g).name.Some? {
      assert InGroups(s.a, u.g);
      assert AllKnown(x, s, u.g, MaskOf(s.masks, u.g));
      NamedKnown(x, s, u.g, u.sum);
      NamedKnown(x, s, u.g, MaskOf(s.masks, u.g));
    }
  }

  lemma {:induction false} SameNamedSameSums(x: Exts, masks: map<Category, Mask>, masks': map<Category, Mask>,
                                             g: Category, j: nat)
    requires WellFormed(x) && SameNamed(x, masks, masks') && j <= MAX_GROUP_SIZE
    ensures PartialSum(x, masks', g, j) == PartialSum(x, masks, g, j)
  {
    if j > 0 {
      SameNamedSameSums(x, masks, masks', g, j - 1);
    }
  }

  lemma {:induction false} InPartialSum(x: Exts, masks: map<Category, Mask>, g: Category, j: nat, k: nat)
    requires j <= MAX_GROUP_SIZE
    ensures k in PartialSum(x, masks, g, j) <==>
      exists i :: 0 <= i < j && x(g).group[i].Some? && k in MaskOf(masks, x(g).group[i].value)
  {
    if j > 0 {
      InPartialSum(x, masks, g, j - 1, k);
    }
  }

  /** The OR has a session's bit when one of the four children has it. */
  lemma InSum(x: Exts, masks: map<Category, Mask>, g: Category, k: nat)
    ensures k in Sum(x, masks, g) <==>
      exists i :: 0 <= i < 4 && x(g).group[i].Some? && k in MaskOf(masks, x(g).group[i].value)
  {
    InPartialSum(x, masks, g, MAX_GROUP_SIZE, k);
  }

  /** With no child writer about, a step leaves every OR of children as it was. */
  lemma StepKeepsSums(x: Exts, s: State, act: Action, i: nat)
    requires WellFormed(x) && ProvenanceInv(x, s) && Enabled(s, act) && !Owed(s, i)
    ensures SameNamed(x, s.masks, Do(x, s, act).masks)
  {
    match act
    case DoSession(k) =>
      var pc := s.sessions[k].pc;
      assert !Owes(s, Session(k), i);
      if SessionUpdate(pc).Some? { StoreKeepsNamed(x, s, Session(k)); }
    case DoThread(t) =>
      if PcOf(s, t).Refreshing? { StoreKeepsNamed(x, s, Registrant(t)); }
    case _ =>
  }

  // ---------------------------------------------------------------- one step

  ghost predicate Fills(x: Exts, s: State, act: Action, i: nat)
    requires Enabled(s, act)
  {
    GroupAt(s.a, i).None? && GroupAt(Do(x, s, act).a, i).Some?
  }

  /** The last owed update of slot i starts although another one is in flight with stale reads. */
  ghost predicate StartsOverStale(x: Exts, s: State, act: Action, i: nat)
    requires Enabled(s, act)
  {
    && Owed(s, i) && !Owed(Do(x, s, act), i)
    && exists who: Actor :: InFlight(s, who, i) && !UpToDate(x, s, who, i)
  }

  /** An init call, which updates no group, adds one with active children that nobody owes an
      update. */
  ghost predicate InitAddsActive(x: Exts, s: State, act: Action, i: nat)
    requires Enabled(s, act)
  {
    && act.DoInit? && Fills(x, s, act, i) && !Owed(s, i)
    && Sum(x, s.masks, GroupAt(Do(x, s, act).a, i).value) != {}
  }

  /** The actor whose callback or update a step advances. */
  function Acting(s: State, act: Action): Option<Actor> {
    match act
    case DoSession(k) => Some(Session(k))
    case DoThread(t) => if PcOf(s, t).Refreshing? then Some(Registrant(t)) else None
    case _ => None
  }

  /** Everyone else's update and debts are unaffected by a step. */
  lemma OthersUnaffected(x: Exts, s: State, act: Action, who: Actor, i: nat)
    requires RegistryInv(x, s) && Enabled(s, act) && Acting(s, act) != Some(who)
    requires Fills(x, s, act, i) ==> act.DoInit?
    ensures UpdateOf(Do(x, s, act), who) == UpdateOf(s, who)
      || (UpdateOf(s, who).None? && !InFlight(Do(x, s, act), who, i))
    ensures Owes(Do(x, s, act), who, i) == Owes(s, who, i)
  {
    match act
    case DoThread(t) =>
      if PcOf(s, t).Adding? { assert AdderOk(s.a, PcOf(s, t).g, PcOf(s, t).i); }
    case DoSession(k) => OtherThanSession(x, s, k, who, i);
    case _ =>
  }

  lemma OtherThanSession(x: Exts, s: State, k: nat, who: Actor, i: nat)
    requires k < |s.sessions| && who != Session(k)
    ensures UpdateOf(StepSession(x, s, k), who) == UpdateOf(s, who)
    ensures Owes(StepSession(x, s, k), who, i) == Owes(s, who, i)
  {
    assert forall t :: PcOf(StepSession(x, s, k), t) == PcOf(s, t);
  }

  lemma NoActorSameMasks(x: Exts, s: State, act: Action)
    requires Enabled(s, act) && Acting(s, act).None?
    ensures Do(x, s, act).masks == s.masks
  {
  }

  lemma WithoutActorFrame(x: Exts, s: State, act: Action, i: nat)
    requires RegistryInv(x, s) && Enabled(s, act)
    requires Acting(s, act).None? && (Fills(x, s, act, i) ==> act.DoInit?)
    ensures var s' := Do(x, s, act);
      && (forall who: Actor :: InFlight(s', who, i) == InFlight(s, who, i))
      && (forall who: Actor :: InFlight(s', who, i) ==> UpdateOf(s', who) == UpdateOf(s, who))
      && Owed(s', i) == Owed(s, i)
      && s'.masks == s.masks
  {
    var s' := Do(x, s, act);
    NoActorSameMasks(x, s, act);
    forall who: Actor
      ensures Owes(s', who, i) == Owes(s, who, i)
      ensures InFlight(s', who, i) == InFlight(s, who, i)
      ensures InFlight(s', who, i) ==> UpdateOf(s', who) == UpdateOf(s, who)
    {
      OthersUnaffected(x, s, act, who, i);
    }
    if Owed(s, i) {
      var who :| Owes(s, who, i);
      assert Owes(s', who, i);
    }
  }

  /** Steps that advance no callback and fill no slot i, or fill it from an init call. */
  lemma FreshWithoutActor(x: Exts, s: State, act: Action, i: nat)
    requires WellFormed(x) && GroupInv(x, s) && Enabled(s, act) && Fresh(x, s, i)
    requires Acting(s, act).None? && (Fills(x, s, act, i) ==> act.DoInit?)
    ensures Fresh(x, Do(x, s, act), i) <==> !InitAddsActive(x, s, act, i)
    ensures Owed(Do(x, s, act), i) == Owed(s, i)
  {
    var s' := Do(x, s, act);
    WithoutActorFrame(x, s, act, i);
    NextKeepsRegistry(x, s, act);
    if Fills(x, s, act, i) {
      var g := GroupAt(s'.a, i).value;
      assert g == Todo(s.a)[0] && g in Todo(s.a) && Pending(s.a, g);
      assert MaskOf(s.masks, g) == {};
      NoStaleInEmpty(x, s, i);
    }
  }

  /** An update in flight is of the group in its slot. */
  lemma FlightSlotFilled(x: Exts, s: State, who: Actor, i: nat)
    requires RegistryInv(x, s)
    ensures InFlight(s, who, i) ==>
      UpdateOk(s.a, UpdateOf(s, who).value) && GroupAt(s.a, i) == Some(UpdateOf(s, who).value.g)
  {
  }

  /** How the acting callback or registrant can stand to slot i after its step: it has started
      the update it owed, read a child, finished the update, or is not concerned. */
  ghost predicate Moves(x: Exts, s: State, s': State, who: Actor, i: nat)
    requires GroupAt(s.a, i).Some?
  {
    && s'.a == s.a
    && (Owes(s, who, i) && !Owes(s', who, i) ==>
          && s'.masks == s.masks
          && UpdateOf(s', who) == Some(Reading(i, GroupAt(s.a, i).value, 0, {})))
    && (!Owes(s, who, i) && InFlight(s', who, i) ==>
          && InFlight(s, who, i)
          && s'.masks == s.masks
          && UpdateOf(s, who).value.j < MAX_GROUP_SIZE
          && UpdateOf(s', who) == AfterUpdate(x, s.a, s.masks, UpdateOf(s, who).value, true))
    && (InFlight(s, who, i) && !InFlight(s', who, i) ==>
          && s'.masks == s.masks[UpdateOf(s, who).value.g := UpdateOf(s, who).value.sum]
          && UpdateOf(s, who).value.j == MAX_GROUP_SIZE)
  }

  lemma SessionMoves(x: Exts, s: State, k: nat, i: nat)
    requires RegistryInv(x, s) && k < |s.sessions| && GroupAt(s.a, i).Some?
    ensures Moves(x, s, StepSession(x, s, k), Session(k), i)
  {
    var u := SessionUpdate(s.sessions[k].pc);
    if u.Some? {
      assert UpdateOk(s.a, u.value);
      ScanMoves(x, s, k, i);
    }
  }

  lemma ScanMoves(x: Exts, s: State, k: nat, i: nat)
    requires k < |s.sessions| && GroupAt(s.a, i).Some? && Compact(s.a.groups)
    requires SessionUpdate(s.sessions[k].pc).Some? && UpdateOk(s.a, SessionUpdate(s.sessions[k].pc).value)
    ensures Moves(x, s, StepSession(x, s, k), Session(k), i)
  {
  }

  lemma RegistrantMoves(x: Exts, s: State, t: Thread, i: nat)
    requires RegistryInv(x, s) && PcOf(s, t).Refreshing? && GroupAt(s.a, i).Some?
    ensures Moves(x, s, StepThread(x, s, t), Registrant(t), i)
  {
    assert RefreshOk(s.a, PcOf(s, t).u);
  }

  lemma ActingMoves(x: Exts, s: State, act: Action, who: Actor, i: nat)
    requires RegistryInv(x, s) && Enabled(s, act) && Acting(s, act) == Some(who) && GroupAt(s.a, i).Some?
    ensures Moves(x, s, Do(x, s, act), who, i)
  {
    if who.Session? {
      SessionMoves(x, s, who.k, i);
    } else {
      RegistrantMoves(x, s, who.t, i);
    }
  }

  /** An update goes on, or reads one more child, while no child changes. */
  lemma FlightStaysUpToDate(x: Exts, s: State, s': State, who: Actor, i: nat)
    requires InFlight(s, who, i) && InFlight(s', who, i) && UpToDate(x, s, who, i)
    requires var u, u' := UpdateOf(s, who), UpdateOf(s', who);
      u' == u || (u.value.j < MAX_GROUP_SIZE && u' == AfterUpdate(x, s.a, s.masks, u.value, true))
    requires WellFormed(x) && SameNamed(x, s.masks, s'.masks)
    requires UpdateOf(s, who).value.j <= MAX_GROUP_SIZE
    ensures UpToDate(x, s', who, i)
  {
    var u := UpdateOf(s', who).value;
    SameNamedSameSums(x, s.masks, s'.masks, u.g, u.j);
  }

  /** Updates in flight stay up to date while no child changes. */
  lemma FlightsStayUpToDate(x: Exts, s: State, act: Action, who: Actor, i: nat)
    requires WellFormed(x) && GroupInv(x, s) && Enabled(s, act) && Acting(s, act) == Some(who)
    requires GroupAt(s.a, i).Some? && Fresh(x, s, i) && !Owed(s, i)
    ensures forall w: Actor :: InFlight(Do(x, s, act), w, i) ==> InFlight(s, w, i) && UpToDate(x, Do(x, s, act), w, i)
    ensures Sum(x, Do(x, s, act).masks, GroupAt(s.a, i).value) == Sum(x, s.masks, GroupAt(s.a, i).value)
  {
    var s' := Do(x, s, act);
    var g := GroupAt(s.a, i).value;
    assert !Owes(s, who, i);
    ActingMoves(x, s, act, who, i);
    StepKeepsSums(x, s, act, i);
    SameNamedSameSums(x, s.masks, s'.masks, g, MAX_GROUP_SIZE);
    forall w: Actor | InFlight(s', w, i) ensures InFlight(s, w, i) && UpToDate(x, s', w, i) {
      if w != who {
        OthersUnaffected(x, s, act, w, i);
      }
      FlightSlotFilled(x, s, w, i);
      FlightStaysUpToDate(x, s, s', w, i);
    }
  }

  /** The step of an actor while nobody owes slot i an update. */
  lemma FreshSettled(x: Exts, s: State, act: Action, who: Actor, i: nat)
    requires WellFormed(x) && GroupInv(x, s) && Enabled(s, act) && Acting(s, act) == Some(who)
    requires GroupAt(s.a, i).Some? && Fresh(x, s, i) && !Owed(s, i)
    ensures Fresh(x, Do(x, s, act), i)
  {
    var s' := Do(x, s, act);
    assert !Owes(s, who, i);
    ActingMoves(x, s, act, who, i);
    FlightsStayUpToDate(x, s, act, who, i);
    if InFlight(s, who, i) {
      FlightSlotFilled(x, s, who, i);
    } else {
      MaskElsewhere(x, s, act, who, i);
    }
    if w: Actor :| InFlight(s, w, i) && w != who {
      OthersUnaffected(x, s, act, w, i);
      assert InFlight(s', w, i);
    }
  }

  /** An actor with no update of slot i in flight does not change the mask of its group. */
  lemma MaskElsewhere(x: Exts, s: State, act: Action, who: Actor, i: nat)
    requires RegistryInv(x, s) && Enabled(s, act) && Acting(s, act) == Some(who)
    requires GroupAt(s.a, i).Some? && !InFlight(s, who, i)
    ensures MaskOf(Do(x, s, act).masks, GroupAt(s.a, i).value) == MaskOf(s.masks, GroupAt(s.a, i).value)
  {
    if UpdateOf(s, who).Some? && UpdateOf(s, who).value.Reading? {
      FlightSlotFilled(x, s, who, UpdateOf(s, who).value.i);
    }
  }

  /** The step of an actor while somebody owes slot i an update: all is well unless the last
      such update starts over a stale one. */
  lemma FreshOwed(x: Exts, s: State, act: Action, who: Actor, i: nat)
    requires WellFormed(x) && GroupInv(x, s) && Enabled(s, act) && Acting(s, act) == Some(who)
    requires GroupAt(s.a, i).Some? && Owed(s, i)
    ensures Fresh(x, Do(x, s, act), i) <==> !StartsOverStale(x, s, act, i)
  {
    var s' := Do(x, s, act);
    ActingMoves(x, s, act, who, i);
    if !Owed(s', i) {
      var w :| Owes(s, w, i);
      assert !Owes(s', w, i);
      if w != who { OthersUnaffected(x, s, act, w, i); }
      assert InFlight(s', who, i) && UpToDate(x, s', who, i);
      forall v: Actor | v != who
        ensures InFlight(s', v, i) == InFlight(s, v, i)
        ensures InFlight(s, v, i) ==> UpToDate(x, s', v, i) == UpToDate(x, s, v, i)
      {
        OthersUnaffected(x, s, act, v, i);
      }
    }
  }

  /** A registrant that fills slot i owes it an update. */
  lemma FreshFilled(x: Exts, s: State, act: Action, i: nat)
    requires RegistryInv(x, s) && Enabled(s, act) && Fills(x, s, act, i) && !act.DoInit?
    ensures act.DoThread? && Owes(Do(x, s, act), Registrant(act.t), i) && Fresh(x, Do(x, s, act), i)
  {
    var s' := Do(x, s, act);
    assert PcOf(s', act.t) == Refreshing(Slot(i));
    assert Owes(s', Registrant(act.t), i);
  }

  /** Control of slot i is lost in exactly two ways: its last owed update starts over a stale
      one, or an init call fills it with a group whose children are already active. */
  lemma FreshStep(x: Exts, s: State, act: Action, i: nat)
    requires WellFormed(x) && GroupInv(x, s) && Enabled(s, act) && Fresh(x, s, i)
    ensures Fresh(x, Do(x, s, act), i) <==>
            !StartsOverStale(x, s, act, i) && !InitAddsActive(x, s, act, i)
  {
    if Fills(x, s, act, i) && !act.DoInit? {
      FreshFilled(x, s, act, i);
    } else if Acting(s, act).None? {
      FreshWithoutActor(x, s, act, i);
    } else if GroupAt(s.a, i).None? {
      NextKeepsRegistry(x, s, act);
      NoStaleInEmpty(x, s, i);
    } else if Owed(s, i) {
      FreshOwed(x, s, act, Acting(s, act).value, i);
    } else {
      FreshSettled(x, s, act, Acting(s, act).value, i);
    }
  }

  lemma NoStaleInEmpty(x: Exts, s: State, i: nat)
    requires RegistryInv(x, s) && GroupAt(s.a, i).None?
    ensures forall who: Actor :: !InFlight(s, who, i)
  {
    forall who: Actor ensures !InFlight(s, who, i) {
      FlightSlotFilled(x, s, who, i);
    }
  }

  // ---------------------------------------------------------------- theorems over runs

  lemma StoresStayInGroups(x: Exts, s: State, act: Action, c: Category)
    requires RegistryInv(x, s) && Enabled(s, act)
    requires MaskOf(Do(x, s, act).masks, c) != MaskOf(s.masks, c)
    ensures c in s.a.categories || InGroups(s.a, c)
  {
    if Acting(s, act).None? {
      NoActorSameMasks(x, s, act);
    } else {
      var who := Acting(s, act).value;
      if UpdateOf(s, who).Some? && UpdateOf(s, who).value.Reading? {
        FlightSlotFilled(x, s, who, UpdateOf(s, who).value.i);
      }
    }
  }

  lemma NextKeepsGroupInv(x: Exts, s: State, act: Action)
    requires WellFormed(x) && GroupInv(x, s) && Enabled(s, act)
    ensures GroupInv(x, Do(x, s, act))
  {
    var s' := Do(x, s, act);
    NextKeepsProvenance(x, s, act);
    NextKeepsRegistry(x, s, act);
    forall c: Category | c !in s'.a.categories && !InGroups(s'.a, c) ensures MaskOf(s'.masks, c) == {} {
      assert !InGroups(s.a, c) by {
        assert forall i :: 0 <= i < |s.a.groups| && s.a.groups[i] == Some(c) ==> s'.a.groups[i] == Some(c);
      }
      if MaskOf(s'.masks, c) != MaskOf(s.masks, c) { StoresStayInGroups(x, s, act, c); }
    }
  }

  lemma {:induction false} GroupInvAlways(x: Exts, run: seq<State>, n: nat)
    requires WellFormed(x) && IsRun(x, run) && n < |run|
    ensures GroupInv(x, run[n])
  {
    if n == 0 {
      InitialProvenance(x);
    } else {
      GroupInvAlways(x, run, n - 1);
      var act := ActionAt(x, run, n - 1);
      NextKeepsGroupInv(x, run[n-1], act);
    }
  }

  /** The step from state n is neither of the two that lose control of slot i. */
  ghost predicate Calm(x: Exts, run: seq<State>, n: nat, i: nat)
    requires n + 1 < |run|
  {
    forall act :: Enabled(run[n], act) && run[n+1] == Do(x, run[n], act) ==>
      !StartsOverStale(x, run[n], act, i) && !InitAddsActive(x, run[n], act, i)
  }

  lemma FreshNext(x: Exts, run: seq<State>, n: nat, i: nat)
    requires WellFormed(x) && IsRun(x, run) && n + 1 < |run|
    requires Fresh(x, run[n], i) && Calm(x, run, n, i)
    ensures Fresh(x, run[n+1], i)
  {
    GroupInvAlways(x, run, n);
    var act := ActionAt(x, run, n);
    FreshStep(x, run[n], act, i);
  }

  lemma {:induction false} FreshAlong(x: Exts, run: seq<State>, m: nat, n: nat, i: nat)
    requires WellFormed(x) && IsRun(x, run) && m <= n < |run|
    requires Fresh(x, run[m], i) && forall j: nat :: m <= j < n ==> Calm(x, run, j, i)
    ensures Fresh(x, run[n], i)
  {
    if m < n {
      FreshAlong(x, run, m, n - 1, i);
      assert Calm(x, run, n - 1, i);
      FreshNext(x, run, n - 1, i);
    }
  }

  /** At most one update of slot i is in flight. */
  ghost predicate Serialized(s: State, i: nat) {
    forall who: Actor, who': Actor :: InFlight(s, who, i) && InFlight(s, who', i) ==> who == who'
  }

  lemma SerializedIsCalm(x: Exts, run: seq<State>, n: nat, i: nat)
    requires WellFormed(x) && IsRun(x, run) && n + 1 < |run|
    requires GroupAt(run[n].a, i).Some? && Serialized(run[n], i) && Serialized(run[n+1], i)
    ensures Calm(x, run, n, i)
  {
    var s := run[n];
    RegistryAlways(x, run, n);
    forall act | Enabled(s, act) && run[n+1] == Do(x, s, act)
      ensures !StartsOverStale(x, s, act, i) && !InitAddsActive(x, s, act, i)
    {
      if StartsOverStale(x, s, act, i) {
        StaleMeansTwoInFlight(x, s, act, i);
      }
    }
  }

  lemma StaleMeansTwoInFlight(x: Exts, s: State, act: Action, i: nat)
    requires RegistryInv(x, s) && Enabled(s, act) && GroupAt(s.a, i).Some?
    requires StartsOverStale(x, s, act, i)
    ensures !Serialized(Do(x, s, act), i)
  {
    var s' := Do(x, s, act);
    var stale: Actor :| InFlight(s, stale, i) && !UpToDate(x, s, stale, i);
    var owing :| Owes(s, owing, i);
    assert !Owes(s', owing, i);
    if Acting(s, act) != Some(owing) {
      OthersUnaffected(x, s, act, owing, i);
      assert false;
    }
    ActingMoves(x, s, act, owing, i);
    OthersUnaffected(x, s, act, stale, i);
    assert InFlight(s', stale, i) && InFlight(s', owing, i) && stale != owing;
  }

  /** A group's mask is the OR of its children's masks whenever nobody is updating it, from the
      moment its registrant filled its slot or any session callback was under way, as long as
      updates of that slot do not overlap. This holds although setups, stops, registrations and
      init calls interleave freely, and although scans stop at the first empty slot. */
  lemma ExactWhenSerialized(x: Exts, run: seq<State>, m: nat, n: nat, i: nat)
    requires WellFormed(x) && IsRun(x, run) && m <= n < |run|
    requires GroupAt(run[m].a, i).Some? && Owed(run[m], i)
    requires forall j: nat :: m <= j <= n ==> Serialized(run[j], i)
    requires Quiet(run[n], i)
    ensures GroupAt(run[n].a, i) == GroupAt(run[m].a, i) && MaskIsSum(x, run[n], i)
  {
    WriteOnce(x, run, m, n);
    forall j: nat | m <= j < n ensures Calm(x, run, j, i) {
      WriteOnce(x, run, m, j);
      SerializedIsCalm(x, run, j, i);
    }
    FreshAlong(x, run, m, n, i);
  }

  /** A registration puts its slot under control at once. */
  lemma RegistrationOwes(run: seq<State>, n: nat, t: Thread, g: Category, i: nat)
    requires AddsAt(run, n, t, g, i)
    ensures Owed(run[n+1], i)
  {
    assert Owes(run[n+1], Registrant(t), i);
  }
}
