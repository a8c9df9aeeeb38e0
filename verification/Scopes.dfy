/** TRACE_EVENT: a begin event when the enclosing scope is entered and an end event when it is
    left, each written to the sessions in the mask that the category has at that moment. */
module Scopes {
  /** One execution of a traced scope: the masks read on entry and on exit, whatever happened to
      the category in between, and the traced scopes executed inside it. */
  datatype Scope = Scope(id: nat, entry: set<nat>, exit: set<nat>, body: seq<Scope>)

  datatype Event = Begin(id: nat) | End(id: nat)

  // ---------------------------------------------------------------- what a session receives

  /** The events of one scope in the stream of session k. */
  function Emit(scope: Scope, k: nat): seq<Event>
    decreases scope, 0
  {
    (if k in scope.entry then [Begin(scope.id)] else [])
    + EmitAll(scope.body, k)
    + (if k in scope.exit then [End(scope.id)] else [])
  }

  function EmitAll(scopes: seq<Scope>, k: nat): seq<Event>
    decreases scopes, 1
  {
    if scopes == [] then [] else Emit(scopes[0], k) + EmitAll(scopes[1..], k)
  }

  /** All scopes executed, at any depth, in order of entry. */
  function Executed(scopes: seq<Scope>): seq<Scope>
    decreases scopes
  {
    if scopes == [] then [] else [scopes[0]] + Executed(scopes[0].body) + Executed(scopes[1..])
  }

  function Ids(scopes: seq<Scope>): set<nat>
    decreases scopes
  {
    if scopes == [] then {} else {scopes[0].id} + Ids(scopes[0].body) + Ids(scopes[1..])
  }

  /** Every execution of a scope has an identity of its own. */
  ghost predicate DistinctIds(scopes: seq<Scope>)
    decreases scopes
  {
    scopes == [] ||
    (&& scopes[0].id !in Ids(scopes[0].body)
     && scopes[0].id !in Ids(scopes[1..])
     && Ids(scopes[0].body) !! Ids(scopes[1..])
     && DistinctIds(scopes[0].body)
     && DistinctIds(scopes[1..]))
  }

  /** The session's bit is the same on entry and on exit. */
  predicate Steady(scope: Scope, k: nat) {
    k in scope.entry <==> k in scope.exit
  }

  ghost predicate AllSteady(scopes: seq<Scope>, k: nat) {
    forall scope :: scope in Executed(scopes) ==> Steady(scope, k)
  }

  // ---------------------------------------------------------------- how a stream is read

  datatype Reading = Open(scopes: seq<nat>) | Mismatch

  /** A reader keeps a stack of open scopes; each end closes the innermost one, which has to be
      the scope it was written for. */
  function Read(open: seq<nat>, events: seq<Event>): Reading
    decreases events
  {
    if events == [] then Open(open)
    else match events[0]
      case Begin(id) => Read([id] + open, events[1..])
      case End(id) => if open != [] && open[0] == id then Read(open[1..], events[1..]) else Mismatch
  }

  lemma {:induction false} ReadInPieces(open: seq<nat>, a: seq<Event>, b: seq<Event>)
    ensures Read(open, a + b) ==
            if Read(open, a).Open? then Read(Read(open, a).scopes, b) else Mismatch
    decreases a
  {
    if a == [] {
      assert a + b == b;
    } else {
      assert (a + b)[1..] == a[1..] + b;
      match a[0]
      case Begin(id) => ReadInPieces([id] + open, a[1..], b);
      case End(id) => if open != [] && open[0] == id { ReadInPieces(open[1..], a[1..], b); }
    }
  }

  lemma ExecutedParts(scopes: seq<Scope>, scope: Scope)
    requires scopes != []
    ensures scope in Executed(scopes) <==>
            scope == scopes[0] || scope in Executed(scopes[0].body) || scope in Executed(scopes[1..])
  {
  }

  lemma SteadyParts(scopes: seq<Scope>, k: nat)
    requires scopes != []
    ensures AllSteady(scopes, k) <==>
            Steady(scopes[0], k) && AllSteady(scopes[0].body, k) && AllSteady(scopes[1..], k)
  {
    forall scope ensures scope in Executed(scopes) <==>
      scope == scopes[0] || scope in Executed(scopes[0].body) || scope in Executed(scopes[1..])
    {
      ExecutedParts(scopes, scope);
    }
  }

  /** A session whose bit stays put in each scope reads a well-bracketed stream. */
  lemma {:induction false} SteadyBrackets(scopes: seq<Scope>, k: nat, open: seq<nat>)
    requires AllSteady(scopes, k)
    ensures Read(open, EmitAll(scopes, k)) == Open(open)
    decreases scopes
  {
    if scopes != [] {
      SteadyParts(scopes, k);
      var scope := scopes[0];
      var body := EmitAll(scope.body, k);
      if k in scope.entry {
        var inner := [scope.id] + open;
        SteadyBrackets(scope.body, k, inner);
        ReadInPieces(inner, body, [End(scope.id)]);
        assert inner[1..] == open;
        assert Read(inner, [End(scope.id)]) == Read(open, []);
        assert Emit(scope, k) == [Begin(scope.id)] + (body + [End(scope.id)]);
        assert Read(open, Emit(scope, k)) == Read(inner, body + [End(scope.id)]);
      } else {
        SteadyBrackets(scope.body, k, open);
        assert Emit(scope, k) == body;
      }
      ReadInPieces(open, Emit(scope, k), EmitAll(scopes[1..], k));
      SteadyBrackets(scopes[1..], k, open);
    }
  }

  // ---------------------------------------------------------------- counting

  function Count(events: seq<Event>, e: Event): nat {
    multiset(events)[e]
  }

  /** How often an event of one kind for one scope is emitted. */
  lemma CountEmit(scope: Scope, k: nat, e: Event)
    ensures Count(Emit(scope, k), e) ==
            (if k in scope.entry && e == Begin(scope.id) then 1 else 0)
            + Count(EmitAll(scope.body, k), e)
            + (if k in scope.exit && e == End(scope.id) then 1 else 0)
  {
  }

  lemma CountEmitAll(scopes: seq<Scope>, k: nat, e: Event)
    requires scopes != []
    ensures Count(EmitAll(scopes, k), e) == Count(Emit(scopes[0], k), e) + Count(EmitAll(scopes[1..], k), e)
  {
  }

  /** Reading keeps, for each scope, the balance of opened and closed. */
  lemma {:induction false} ReadBalance(open: seq<nat>, events: seq<Event>, id: nat)
    requires Read(open, events).Open?
    ensures multiset(Read(open, events).scopes)[id] + Count(events, End(id)) ==
            multiset(open)[id] + Count(events, Begin(id))
    decreases events
  {
    if events != [] {
      assert events == [events[0]] + events[1..];
      match events[0]
      case Begin(id') => ReadBalance([id'] + open, events[1..], id);
      case End(id') =>
        assert open == [open[0]] + open[1..];
        ReadBalance(open[1..], events[1..], id);
    }
  }

  lemma {:induction false} IdsAreOfExecuted(scopes: seq<Scope>, scope: Scope)
    requires scope in Executed(scopes)
    ensures scope.id in Ids(scopes)
    decreases scopes
  {
    ExecutedParts(scopes, scope);
    if scope in Executed(scopes[0].body) {
      IdsAreOfExecuted(scopes[0].body, scope);
    } else if scope in Executed(scopes[1..]) {
      IdsAreOfExecuted(scopes[1..], scope);
    }
  }

  /** Scopes emit nothing for others. */
  lemma {:induction false} NothingForOthers(scopes: seq<Scope>, k: nat, id: nat)
    requires id !in Ids(scopes)
    ensures Count(EmitAll(scopes, k), Begin(id)) == 0 && Count(EmitAll(scopes, k), End(id)) == 0
    decreases scopes
  {
    if scopes != [] {
      NothingForOthers(scopes[0].body, k, id);
      NothingForOthers(scopes[1..], k, id);
      CountEmit(scopes[0], k, Begin(id));
      CountEmit(scopes[0], k, End(id));
      CountEmitAll(scopes, k, Begin(id));
      CountEmitAll(scopes, k, End(id));
    }
  }

  /** Each executed scope emits its own begin and end at most once, as its masks say. */
  lemma {:induction false} OwnEvents(scopes: seq<Scope>, k: nat, scope: Scope)
    requires DistinctIds(scopes) && scope in Executed(scopes)
    ensures Count(EmitAll(scopes, k), Begin(scope.id)) == if k in scope.entry then 1 else 0
    ensures Count(EmitAll(scopes, k), End(scope.id)) == if k in scope.exit then 1 else 0
    decreases scopes
  {
    var first, rest := scopes[0], scopes[1..];
    var id := scope.id;
    ExecutedParts(scopes, scope);
    CountEmit(first, k, Begin(id));
    CountEmit(first, k, End(id));
    CountEmitAll(scopes, k, Begin(id));
    CountEmitAll(scopes, k, End(id));
    if scope == first {
      NothingForOthers(first.body, k, id);
      NothingForOthers(rest, k, id);
    } else if scope in Executed(first.body) {
      IdsAreOfExecuted(first.body, scope);
      OwnEvents(first.body, k, scope);
      NothingForOthers(rest, k, id);
    } else {
      IdsAreOfExecuted(rest, scope);
      OwnEvents(rest, k, scope);
      NothingForOthers(first.body, k, id);
    }
  }

  // ---------------------------------------------------------------- theorems

  /** A session's stream is well bracketed, every end closing the innermost open scope and being
      that scope's own, exactly when its bit was the same on entry and exit of every scope. */
  lemma WellBracketedExactlyWhenSteady(scopes: seq<Scope>, k: nat, open: seq<nat>)
    requires DistinctIds(scopes)
    ensures Read(open, EmitAll(scopes, k)) == Open(open) <==> AllSteady(scopes, k)
  {
    if AllSteady(scopes, k) {
      SteadyBrackets(scopes, k, open);
    } else if Read(open, EmitAll(scopes, k)) == Open(open) {
      forall scope | scope in Executed(scopes) ensures Steady(scope, k) {
        ReadBalance(open, EmitAll(scopes, k), scope.id);
        OwnEvents(scopes, k, scope);
      }
    }
  }

  /** A session that starts inside the scope. */
  predicate Risen(scope: Scope, k: nat) {
    k !in scope.entry && k in scope.exit
  }

  /** A session that stops inside the scope. */
  predicate Fallen(scope: Scope, k: nat) {
    k in scope.entry && k !in scope.exit
  }

  function HowMany(scopes: seq<Scope>, p: Scope -> bool): nat {
    if scopes == [] then 0 else (if p(scopes[0]) then 1 else 0) + HowMany(scopes[1..], p)
  }

  lemma {:induction false} HowManyInPieces(a: seq<Scope>, b: seq<Scope>, p: Scope -> bool)
    ensures HowMany(a + b, p) == HowMany(a, p) + HowMany(b, p)
  {
    if a == [] {
      assert a + b == b;
    } else {
      HowManyInPieces(a[1..], b, p);
      assert (a + b)[1..] == a[1..] + b;
    }
  }

  function Ends(events: seq<Event>): nat {
    if events == [] then 0 else (if events[0].End? then 1 else 0) + Ends(events[1..])
  }

  lemma {:induction false} EndsInPieces(a: seq<Event>, b: seq<Event>)
    ensures Ends(a + b) == Ends(a) + Ends(b)
  {
    if a == [] {
      assert a + b == b;
    } else {
      EndsInPieces(a[1..], b);
      assert (a + b)[1..] == a[1..] + b;
    }
  }

  /** Begins and ends of any stream balance up to the scopes inside which the session started
      or stopped, however the masks moved. */
  lemma {:induction false} SurplusEnds(scopes: seq<Scope>, k: nat)
    ensures var events := EmitAll(scopes, k);
      Ends(events) + HowMany(Executed(scopes), scope => Fallen(scope, k)) ==
      (|events| - Ends(events)) + HowMany(Executed(scopes), scope => Risen(scope, k))
    decreases scopes
  {
    if scopes != [] {
      var first, rest := scopes[0], scopes[1..];
      SurplusEnds(first.body, k);
      SurplusEnds(rest, k);
      ExecutedCounts(scopes, scope => Fallen(scope, k));
      ExecutedCounts(scopes, scope => Risen(scope, k));
      var begin := if k in first.entry then [Begin(first.id)] else [];
      var end := if k in first.exit then [End(first.id)] else [];
      EndsInPieces(begin + EmitAll(first.body, k), end);
      EndsInPieces(begin, EmitAll(first.body, k));
      EndsInPieces(Emit(first, k), EmitAll(rest, k));
    }
  }

  lemma ExecutedCounts(scopes: seq<Scope>, p: Scope -> bool)
    requires scopes != []
    ensures HowMany(Executed(scopes), p) ==
            (if p(scopes[0]) then 1 else 0) + HowMany(Executed(scopes[0].body), p) + HowMany(Executed(scopes[1..]), p)
  {
    HowManyInPieces([scopes[0]] + Executed(scopes[0].body), Executed(scopes[1..]), p);
    HowManyInPieces([scopes[0]], Executed(scopes[0].body), p);
    assert HowMany([scopes[0]], p) == if p(scopes[0]) then 1 else 0;
  }

  ghost predicate ClosedAt(events: seq<Event>, p: int)
    requires 0 <= p < |events| && events[p].Begin?
  {
    exists q :: p < q < |events| && events[q] == End(events[p].id)
  }

  /** Every begin is followed by an end of the same scope. */
  ghost predicate Closed(events: seq<Event>) {
    forall p :: 0 <= p < |events| && events[p].Begin? ==> ClosedAt(events, p)
  }

  lemma ClosedInPieces(a: seq<Event>, b: seq<Event>)
    requires Closed(a) && Closed(b)
    ensures Closed(a + b)
  {
    var events := a + b;
    forall p | 0 <= p < |events| && events[p].Begin? ensures ClosedAt(events, p) {
      if p < |a| {
        assert ClosedAt(a, p);
        var q :| p < q < |a| && a[q] == End(a[p].id);
        assert events[q] == End(events[p].id);
      } else {
        assert ClosedAt(b, p - |a|);
        var q :| p - |a| < q < |b| && b[q] == End(b[p - |a|].id);
        assert events[q + |a|] == End(events[p].id);
      }
    }
  }

  lemma ClosedAround(id: nat, body: seq<Event>)
    requires Closed(body)
    ensures Closed([Begin(id)] + (body + [End(id)]))
  {
    var inner := body + [End(id)];
    var events := [Begin(id)] + inner;
    assert Closed([End(id)]);
    ClosedInPieces(body, [End(id)]);
    forall p | 0 <= p < |events| && events[p].Begin? ensures ClosedAt(events, p) {
      if p == 0 {
        assert events[|events| - 1] == End(id);
      } else {
        assert ClosedAt(inner, p - 1);
        var q :| p - 1 < q < |inner| && inner[q] == End(inner[p - 1].id);
        assert events[q + 1] == End(events[p].id);
      }
    }
  }

  lemma ScopeIsClosed(scope: Scope, k: nat)
    requires Closed(EmitAll(scope.body, k)) && !Fallen(scope, k)
    ensures Closed(Emit(scope, k))
  {
    var body := EmitAll(scope.body, k);
    if k in scope.entry {
      ClosedAround(scope.id, body);
      assert Emit(scope, k) == [Begin(scope.id)] + (body + [End(scope.id)]);
    } else {
      var end := if k in scope.exit then [End(scope.id)] else [];
      ClosedInPieces(body, end);
      assert Emit(scope, k) == body + end;
    }
  }

  /** While the session's bit only rises, every begin is followed by its own scope's end. */
  lemma {:induction false} RisingBeginsAreClosed(scopes: seq<Scope>, k: nat)
    requires forall scope :: scope in Executed(scopes) ==> !Fallen(scope, k)
    ensures Closed(EmitAll(scopes, k))
    decreases scopes
  {
    if scopes != [] {
      var first, rest := scopes[0], scopes[1..];
      forall scope ensures scope in Executed(scopes) <==>
        scope == first || scope in Executed(first.body) || scope in Executed(rest)
      {
        ExecutedParts(scopes, scope);
      }
      RisingBeginsAreClosed(first.body, k);
      RisingBeginsAreClosed(rest, k);
      ScopeIsClosed(first, k);
      ClosedInPieces(Emit(first, k), EmitAll(rest, k));
    }
  }

  // ---------------------------------------------------------------- order

  /** Event e is at position p of the stream of session k. */
  ghost predicate At(scopes: seq<Scope>, k: nat, p: int, e: Event) {
    0 <= p < |EmitAll(scopes, k)| && EmitAll(scopes, k)[p] == e
  }

  /** Where the body of the first scope begins and ends in the stream, and where the rest begins. */
  function BodyStart(scopes: seq<Scope>, k: nat): nat
    requires scopes != []
  {
    if k in scopes[0].entry then 1 else 0
  }

  function BodyEnd(scopes: seq<Scope>, k: nat): nat
    requires scopes != []
  {
    BodyStart(scopes, k) + |EmitAll(scopes[0].body, k)|
  }

  function RestStart(scopes: seq<Scope>, k: nat): nat
    requires scopes != []
  {
    BodyEnd(scopes, k) + if k in scopes[0].exit then 1 else 0
  }

  lemma Layout(scopes: seq<Scope>, k: nat, p: int, e: Event)
    requires At(scopes, k, p, e)
    ensures scopes != []
    ensures
      || (p == 0 < BodyStart(scopes, k) && e == Begin(scopes[0].id))
      || (BodyStart(scopes, k) <= p < BodyEnd(scopes, k) && At(scopes[0].body, k, p - BodyStart(scopes, k), e))
      || (p == BodyEnd(scopes, k) < RestStart(scopes, k) && e == End(scopes[0].id))
      || (RestStart(scopes, k) <= p && At(scopes[1..], k, p - RestStart(scopes, k), e))
  {
    assert EmitAll(scopes, k) == Emit(scopes[0], k) + EmitAll(scopes[1..], k);
    assert |Emit(scopes[0], k)| == RestStart(scopes, k);
  }

  /** A stream only has events of the scopes executed. */
  lemma {:induction false} OnlyOwnIds(scopes: seq<Scope>, k: nat, p: int, e: Event)
    requires At(scopes, k, p, e)
    ensures e.id in Ids(scopes)
    decreases scopes
  {
    Layout(scopes, k, p, e);
    if At(scopes[0].body, k, p - BodyStart(scopes, k), e) {
      OnlyOwnIds(scopes[0].body, k, p - BodyStart(scopes, k), e);
    } else if At(scopes[1..], k, p - RestStart(scopes, k), e) {
      OnlyOwnIds(scopes[1..], k, p - RestStart(scopes, k), e);
    }
  }

  /** Where an event is, and of which scope it is there. */
  lemma Region(scopes: seq<Scope>, k: nat, p: int, e: Event)
    requires At(scopes, k, p, e)
    ensures scopes != []
    ensures
      || (e.id == scopes[0].id && (if e.Begin? then p == 0 < BodyStart(scopes, k) else p == BodyEnd(scopes, k))
          && p < RestStart(scopes, k))
      || (e.id in Ids(scopes[0].body) && BodyStart(scopes, k) <= p < BodyEnd(scopes, k)
          && At(scopes[0].body, k, p - BodyStart(scopes, k), e))
      || (e.id in Ids(scopes[1..]) && RestStart(scopes, k) <= p && At(scopes[1..], k, p - RestStart(scopes, k), e))
  {
    Layout(scopes, k, p, e);
    if At(scopes[0].body, k, p - BodyStart(scopes, k), e) {
      OnlyOwnIds(scopes[0].body, k, p - BodyStart(scopes, k), e);
    } else if At(scopes[1..], k, p - RestStart(scopes, k), e) {
      OnlyOwnIds(scopes[1..], k, p - RestStart(scopes, k), e);
    }
  }

  lemma Separate(scopes: seq<Scope>, id: nat)
    requires DistinctIds(scopes) && scopes != []
    ensures id == scopes[0].id ==> id !in Ids(scopes[0].body) && id !in Ids(scopes[1..])
    ensures id in Ids(scopes[0].body) ==> id !in Ids(scopes[1..])
  {
  }

  /** So the scope tells where it is. */
  lemma Place(scopes: seq<Scope>, k: nat, p: int, e: Event)
    requires DistinctIds(scopes) && At(scopes, k, p, e)
    ensures scopes != []
    ensures e.id == scopes[0].id ==> if e.Begin? then p == 0 < BodyStart(scopes, k) else p == BodyEnd(scopes, k)
    ensures e.id in Ids(scopes[0].body) ==>
      BodyStart(scopes, k) <= p < BodyEnd(scopes, k) && At(scopes[0].body, k, p - BodyStart(scopes, k), e)
    ensures e.id in Ids(scopes[1..]) ==>
      RestStart(scopes, k) <= p && At(scopes[1..], k, p - RestStart(scopes, k), e)
    ensures e.id == scopes[0].id || e.id in Ids(scopes[0].body) ==> p < RestStart(scopes, k)
  {
    Region(scopes, k, p, e);
    Separate(scopes, e.id);
  }

  lemma {:induction false} InnerIsExecuted(scopes: seq<Scope>, outer: Scope, inner: Scope)
    requires outer in Executed(scopes) && inner in Executed(outer.body)
    ensures inner in Executed(scopes)
    decreases scopes
  {
    ExecutedParts(scopes, outer);
    ExecutedParts(scopes, inner);
    if outer in Executed(scopes[0].body) {
      InnerIsExecuted(scopes[0].body, outer, inner);
    } else if outer in Executed(scopes[1..]) {
      InnerIsExecuted(scopes[1..], outer, inner);
    }
  }

  lemma PlaceInBody(scopes: seq<Scope>, k: nat, scope: Scope, p: int, e: Event)
    requires DistinctIds(scopes) && At(scopes, k, p, e) && e.id == scope.id
    requires scopes != [] && scope in Executed(scopes[0].body)
    ensures BodyStart(scopes, k) <= p < BodyEnd(scopes, k) && At(scopes[0].body, k, p - BodyStart(scopes, k), e)
  {
    IdsAreOfExecuted(scopes[0].body, scope);
    Place(scopes, k, p, e);
  }

  lemma PlaceInRest(scopes: seq<Scope>, k: nat, scope: Scope, p: int, e: Event)
    requires DistinctIds(scopes) && At(scopes, k, p, e) && e.id == scope.id
    requires scopes != [] && scope in Executed(scopes[1..])
    ensures RestStart(scopes, k) <= p && At(scopes[1..], k, p - RestStart(scopes, k), e)
  {
    IdsAreOfExecuted(scopes[1..], scope);
    Place(scopes, k, p, e);
  }

  lemma PlaceOfFirst(scopes: seq<Scope>, k: nat, p: int, e: Event)
    requires DistinctIds(scopes) && At(scopes, k, p, e) && scopes != [] && e.id == scopes[0].id
    ensures if e.Begin? then p < BodyStart(scopes, k) else p == BodyEnd(scopes, k)
    ensures p < RestStart(scopes, k)
  {
    Place(scopes, k, p, e);
  }

  /** Whatever is executed inside a scope writes after its begin and before its end, in the stream
      of every session, however its bit moves. */
  lemma {:induction false} InsideItsScope(scopes: seq<Scope>, k: nat, outer: Scope, inner: Scope,
                                          p: int, e: Event, q: int, f: Event)
    requires DistinctIds(scopes) && outer in Executed(scopes) && inner in Executed(outer.body)
    requires At(scopes, k, p, e) && e.id == outer.id
    requires At(scopes, k, q, f) && f.id == inner.id
    ensures if e.Begin? then p < q else q < p
    decreases scopes
  {
    ExecutedParts(scopes, outer);
    if outer == scopes[0] {
      PlaceOfFirst(scopes, k, p, e);
      PlaceInBody(scopes, k, inner, q, f);
    } else if outer in Executed(scopes[0].body) {
      InnerIsExecuted(scopes[0].body, outer, inner);
      PlaceInBody(scopes, k, outer, p, e);
      PlaceInBody(scopes, k, inner, q, f);
      InsideItsScope(scopes[0].body, k, outer, inner, p - BodyStart(scopes, k), e, q - BodyStart(scopes, k), f);
    } else {
      InnerIsExecuted(scopes[1..], outer, inner);
      PlaceInRest(scopes, k, outer, p, e);
      PlaceInRest(scopes, k, inner, q, f);
      InsideItsScope(scopes[1..], k, outer, inner, p - RestStart(scopes, k), e, q - RestStart(scopes, k), f);
    }
  }

  /** How many scopes are executed inside the first one. */
  function Inside(scopes: seq<Scope>): nat
    requires scopes != []
  {
    |Executed(scopes[0].body)|
  }

  /** A scope is the one entered after i others. */
  ghost predicate EnteredAt(scopes: seq<Scope>, i: int, scope: Scope)
    decreases scopes
  {
    scopes != [] &&
    if i <= 0 then i == 0 && scope == scopes[0]
    else if i <= Inside(scopes) then EnteredAt(scopes[0].body, i - 1, scope)
    else EnteredAt(scopes[1..], i - Inside(scopes) - 1, scope)
  }

  lemma {:induction false} EnteredIsExecuted(scopes: seq<Scope>, i: int, scope: Scope)
    ensures EnteredAt(scopes, i, scope) <==> 0 <= i < |Executed(scopes)| && Executed(scopes)[i] == scope
    decreases scopes
  {
    if scopes != [] && 0 < i {
      if i <= Inside(scopes) {
        EnteredIsExecuted(scopes[0].body, i - 1, scope);
      } else {
        EnteredIsExecuted(scopes[1..], i - Inside(scopes) - 1, scope);
      }
    }
  }

  lemma InBody(scopes: seq<Scope>, k: nat, i: int, scope: Scope, p: int, e: Event)
    requires DistinctIds(scopes) && EnteredAt(scopes, i, scope) && At(scopes, k, p, e) && e.id == scope.id
    requires 0 < i <= Inside(scopes)
    ensures p < RestStart(scopes, k) && At(scopes[0].body, k, p - BodyStart(scopes, k), e)
  {
    EnteredIsExecuted(scopes[0].body, i - 1, scope);
    PlaceInBody(scopes, k, scope, p, e);
  }

  lemma InRest(scopes: seq<Scope>, k: nat, i: int, scope: Scope, p: int, e: Event)
    requires DistinctIds(scopes) && EnteredAt(scopes, i, scope) && At(scopes, k, p, e) && e.id == scope.id
    requires Inside(scopes) < i
    ensures RestStart(scopes, k) <= p && At(scopes[1..], k, p - RestStart(scopes, k), e)
  {
    EnteredIsExecuted(scopes[1..], i - Inside(scopes) - 1, scope);
    PlaceInRest(scopes, k, scope, p, e);
  }

  /** Scopes of which the second is not inside the first write in the order in which they are
      entered. */
  lemma {:induction false} InOrder(scopes: seq<Scope>, k: nat, i: int, first: Scope, j: int, second: Scope,
                                   p: int, e: Event, q: int, f: Event)
    requires DistinctIds(scopes) && EnteredAt(scopes, i, first) && EnteredAt(scopes, j, second)
    requires i < j && second !in Executed(first.body)
    requires At(scopes, k, p, e) && e.id == first.id && At(scopes, k, q, f) && f.id == second.id
    ensures p < q
    decreases scopes
  {
    var n, body, rest := Inside(scopes), BodyStart(scopes, k), RestStart(scopes, k);
    if j > n {
      InRest(scopes, k, j, second, q, f);
      if i == 0 {
        PlaceOfFirst(scopes, k, p, e);
      } else if i <= n {
        InBody(scopes, k, i, first, p, e);
      } else {
        InRest(scopes, k, i, first, p, e);
        InOrder(scopes[1..], k, i - n - 1, first, j - n - 1, second, p - rest, e, q - rest, f);
      }
    } else if i == 0 {
      EnteredIsExecuted(scopes[0].body, j - 1, second);
    } else {
      InBody(scopes, k, i, first, p, e);
      InBody(scopes, k, j, second, q, f);
      InOrder(scopes[0].body, k, i - 1, first, j - 1, second, p - body, e, q - body, f);
    }
  }

  // ---------------------------------------------------------------- the macro

  /** The packet streams of all instances. */
  class Trace {
    const streams: array<seq<Event>>

    constructor (instances: nat)
      ensures fresh(streams) && streams.Length == instances
      ensures forall k :: 0 <= k < instances ==> streams[k] == []
    {
      streams := new seq<Event>[instances](_ => []);
    }

    /** TraceWithInstances: the event goes to every instance in the mask. */
    method Write(mask: set<nat>, e: Event)
      modifies streams
      ensures forall k :: 0 <= k < streams.Length ==>
                streams[k] == old(streams[k]) + if k in mask then [e] else []
    {
      var i := 0;
      while i < streams.Length
        invariant 0 <= i <= streams.Length
        invariant forall k :: 0 <= k < streams.Length ==>
                    streams[k] == old(streams[k]) + if k < i && k in mask then [e] else []
      {
        if i in mask {
          streams[i] := streams[i] + [e];
        }
        i := i + 1;
      }
    }

    /** The macros test the mask before they write. */
    method WriteIfAny(mask: set<nat>, e: Event)
      modifies streams
      ensures forall k :: 0 <= k < streams.Length ==>
                streams[k] == old(streams[k]) + if k in mask then [e] else []
    {
      if mask != {} {
        Write(mask, e);
      }
    }

    /** TRACE_EVENT around a body, with the cleanup that runs when the scope is left. */
    method TraceEvent(scope: Scope)
      modifies streams
      ensures forall k :: 0 <= k < streams.Length ==> streams[k] == old(streams[k]) + Emit(scope, k)
      decreases scope
    {
      WriteIfAny(scope.entry, Begin(scope.id));
      ghost var begun := streams[..];
      TraceBody(scope.body);
      ghost var done := streams[..];
      WriteIfAny(scope.exit, End(scope.id));
      forall k | 0 <= k < streams.Length ensures streams[k] == old(streams[k]) + Emit(scope, k) {
        assert begun[k] == old(streams[k]) + if k in scope.entry then [Begin(scope.id)] else [];
        assert done[k] == begun[k] + EmitAll(scope.body, k);
        assert streams[k] == done[k] + if k in scope.exit then [End(scope.id)] else [];
      }
    }

    method TraceBody(scopes: seq<Scope>)
      modifies streams
      ensures forall k :: 0 <= k < streams.Length ==> streams[k] == old(streams[k]) + EmitAll(scopes, k)
      decreases scopes
    {
      if scopes != [] {
        TraceEvent(scopes[0]);
        TraceBody(scopes[1..]);
      }
    }
  }
}
