/** The memo tables of src/percetto-atrace.c as values: which category and which counter track
    every call gives, over whole runs of calls. */
module AtraceMemo {
  import opened Common

  /** The static categories, one for each valid tag bit. */
  const STATIC_COUNT: nat := 28

  /** The bits set in a 64-bit tag word. */
  type TagBit = n: nat | n < 64
  type TagWord = set<TagBit>

  // ---------------------------------------------------------------- the group of a tag word

  predicate IsValidBit(w: TagWord, i: nat) {
    i < STATIC_COUNT && i in w
  }

  /** w & ATRACE_TAG_VALID_MASK is not zero. */
  predicate HasValidBit(w: TagWord) {
    exists i: nat :: i < STATIC_COUNT && IsValidBit(w, i)
  }

  /** The valid bits of w from i on, as long as there is room. */
  function Collect(w: TagWord, i: nat, room: nat): (list: seq<nat>)
    ensures |list| <= room && forall p :: 0 <= p < |list| ==> list[p] < STATIC_COUNT
    decreases w, STATIC_COUNT - i
  {
    if i >= STATIC_COUNT || room == 0 then []
    else if i in w then [i] + Collect(w, i + 1, room - 1)
    else Collect(w, i + 1, room)
  }

  /** The static categories that stand for w. */
  function Chosen(w: TagWord): seq<nat> {
    Collect(w, 0, MAX_GROUP_SIZE)
  }

  /** The loop that collects them has come to bit i and found these. */
  ghost predicate Reached(w: TagWord, i: nat, found: seq<nat>) {
    |found| <= MAX_GROUP_SIZE && Chosen(w) == found + Collect(w, i, MAX_GROUP_SIZE - |found|)
  }

  lemma ReachedNext(w: TagWord, i: nat, found: seq<nat>)
    requires Reached(w, i, found) && i < STATIC_COUNT && (i in w ==> |found| < MAX_GROUP_SIZE)
    ensures Reached(w, i + 1, if i in w then found + [i] else found)
  {
    if i in w {
      var rest := Collect(w, i + 1, MAX_GROUP_SIZE - |found| - 1);
      assert found + ([i] + rest) == (found + [i]) + rest;
    }
  }

  lemma ReachedEnd(w: TagWord, i: nat, found: seq<nat>)
    requires Reached(w, i, found) && (i >= STATIC_COUNT || |found| == MAX_GROUP_SIZE)
    ensures Chosen(w) == found
  {
  }

  ghost predicate Ascending(list: seq<nat>) {
    forall p, q :: 0 <= p < q < |list| ==> list[p] < list[q]
  }

  /** The smallest valid bits of w from i on: all of them, or as many as there is room for. */
  ghost predicate FirstBits(list: seq<nat>, w: TagWord, i: nat, room: nat) {
    && Ascending(list) && |list| <= room
    && (forall b :: b in list ==> i <= b && IsValidBit(w, b))
    && (forall b :: i <= b && IsValidBit(w, b) && b !in list ==> |list| == room && forall c :: c in list ==> c < b)
  }

  lemma {:induction false} CollectsFirstBits(w: TagWord, i: nat, room: nat)
    ensures FirstBits(Collect(w, i, room), w, i, room)
    decreases STATIC_COUNT - i
  {
    if i < STATIC_COUNT && room > 0 {
      var rest := Collect(w, i + 1, if i in w then room - 1 else room);
      CollectsFirstBits(w, i + 1, if i in w then room - 1 else room);
      forall q | 0 <= q < |rest| ensures i < rest[q] {
        assert rest[q] in rest;
      }
    }
  }

  /** Only one sequence is that. */
  lemma {:induction false} FirstBitsUnique(list: seq<nat>, list': seq<nat>, w: TagWord, i: nat, room: nat)
    requires FirstBits(list, w, i, room) && FirstBits(list', w, i, room)
    ensures list == list'
    decreases |list|
  {
    if list == [] {
      if list' != [] {
        HeadIsSmallest(list', list, w, i, room);
      }
    } else {
      HeadIsSmallest(list, list', w, i, room);
      HeadIsSmallest(list', list, w, i, room);
      TailIsFirstBits(list, w, i, room);
      TailIsFirstBits(list', w, i, room);
      FirstBitsUnique(list[1..], list'[1..], w, list[0] + 1, room - 1);
    }
  }

  lemma HeadIsSmallest(list: seq<nat>, list': seq<nat>, w: TagWord, i: nat, room: nat)
    requires FirstBits(list, w, i, room) && FirstBits(list', w, i, room) && list != []
    ensures list' != [] && list'[0] <= list[0]
  {
    assert list[0] in list;
    if list[0] !in list' && list' != [] {
      assert list'[0] in list';
    }
  }

  lemma TailIsFirstBits(list: seq<nat>, w: TagWord, i: nat, room: nat)
    requires FirstBits(list, w, i, room) && list != []
    ensures FirstBits(list[1..], w, list[0] + 1, room - 1)
  {
    var tail := list[1..];
    assert list[0] in list;
    forall b | list[0] + 1 <= b && IsValidBit(w, b) && b !in tail
      ensures |tail| == room - 1 && forall c :: c in tail ==> c < b
    {
      assert b !in list;
      forall c | c in tail ensures c < b {
        assert c in list;
      }
    }
  }

  /** The group of w is exactly its first four valid bits, in ascending order. */
  lemma ChosenExactly(w: TagWord, list: seq<nat>)
    ensures list == Chosen(w) <==> FirstBits(list, w, 0, 4)
    ensures Chosen(w) != [] <==> HasValidBit(w)
  {
    CollectsFirstBits(w, 0, MAX_GROUP_SIZE);
    if FirstBits(list, w, 0, MAX_GROUP_SIZE) {
      FirstBitsUnique(list, Chosen(w), w, 0, MAX_GROUP_SIZE);
    }
    if Chosen(w) != [] {
      assert IsValidBit(w, Chosen(w)[0]);
    }
  }

  // ---------------------------------------------------------------- a table of bounded size

  function IndexOf<K(==)>(keys: seq<K>, key: K): (i: nat)
    requires key in keys
    ensures i < |keys| && keys[i] == key && key !in keys[..i]
  {
    if keys[0] == key then 0 else 1 + IndexOf(keys[1..], key)
  }

  /** The entry for a key: the one it has, or the next one if there is room. */
  function Lookup<K(==)>(keys: seq<K>, key: K, capacity: nat): Option<nat> {
    if key in keys then Some(IndexOf(keys, key))
    else if |keys| < capacity then Some(|keys|)
    else None
  }

  function Remember<K(==)>(keys: seq<K>, key: K, capacity: nat): seq<K> {
    if key in keys || |keys| >= capacity then keys else keys + [key]
  }

  /** Looking the key up again will not change the table. */
  predicate Settled<K(==)>(keys: seq<K>, key: K, capacity: nat) {
    key in keys || |keys| >= capacity
  }

  lemma IndexOfIs<K>(keys: seq<K>, key: K, i: nat)
    requires i < |keys| && keys[i] == key && key !in keys[..i]
    ensures IndexOf(keys, key) == i
  {
    var r := IndexOf(keys, key);
    forall q | 0 <= q < i ensures keys[q] != key {
      assert keys[..i][q] in keys[..i];
    }
    forall q | 0 <= q < r ensures keys[q] != key {
      assert keys[..r][q] in keys[..r];
    }
  }

  /** The answer to a settled question does not depend on what else is asked. */
  lemma SettledStays<K>(keys: seq<K>, key: K, other: K, capacity: nat)
    requires Settled(keys, key, capacity)
    ensures Settled(Remember(keys, other, capacity), key, capacity)
    ensures Lookup(Remember(keys, other, capacity), key, capacity) == Lookup(keys, key, capacity)
  {
    if key in keys {
      var i := IndexOf(keys, key);
      var keys' := Remember(keys, other, capacity);
      assert keys'[..i] == keys[..i];
      IndexOfIs(keys', key, i);
    }
  }

  lemma AskingSettles<K>(keys: seq<K>, key: K, capacity: nat)
    ensures Settled(Remember(keys, key, capacity), key, capacity)
    ensures Lookup(Remember(keys, key, capacity), key, capacity) == Lookup(keys, key, capacity)
  {
    if key !in keys && |keys| < capacity {
      var keys' := keys + [key];
      assert keys'[..|keys|] == keys;
      IndexOfIs(keys', key, |keys|);
    }
  }

  // ---------------------------------------------------------------- the tables

  datatype Status = NotStarted | Ok | Error

  /** Where a category pointer points: s_category_never, a static category, or a group. */
  datatype Found = Never | Static(i: nat) | Entry(j: nat)

  datatype Tables = Tables(status: Status, tags: seq<TagWord>, names: seq<Address>)

  /** The result of atrace_create_category_locked. */
  function CategoryFor(t: Tables, w: TagWord): Found {
    if t.status != Ok || !HasValidBit(w) then Never
    else if w in t.tags then Entry(IndexOf(t.tags, w))
    else if |Chosen(w)| == 1 then Static(Chosen(w)[0])
    else if |t.tags| == MAX_GROUP_CATEGORIES then Never
    else Entry(|t.tags|)
  }

  function AfterCategory(t: Tables, w: TagWord): Tables {
    if CategoryFor(t, w).Entry? then t.(tags := Remember(t.tags, w, MAX_GROUP_CATEGORIES)) else t
  }

  /** The result of atrace_create_counter_locked; None if it leaves the pointer alone. */
  function TrackFor(t: Tables, name: Address): Option<nat> {
    if t.status != Ok then None else Lookup(t.names, name, MAX_TRACKS)
  }

  function AfterTrack(t: Tables, name: Address): Tables {
    if t.status == Ok then t.(names := Remember(t.names, name, MAX_TRACKS)) else t
  }

  /** atrace_init, given whether PERCETTO_INIT succeeds if it is called. */
  function Started(t: Tables, initOk: bool): Tables {
    if t.status == NotStarted then t.(status := if initOk then Ok else Error) else t
  }

  /** Keys are distinct and stand for groups of at least two categories. */
  ghost predicate TablesOk(t: Tables) {
    && (forall p, q :: 0 <= p < q < |t.tags| ==> t.tags[p] != t.tags[q])
    && (forall w :: w in t.tags ==> |Chosen(w)| >= 2)
    && (forall p, q :: 0 <= p < q < |t.names| ==> t.names[p] != t.names[q])
    && |t.tags| <= MAX_GROUP_CATEGORIES && |t.names| <= MAX_TRACKS
    && (t.status != Ok ==> t.tags == [] && t.names == [])
  }

  lemma NewKeyKeepsTables(t: Tables, w: TagWord)
    requires TablesOk(t) && t.status == Ok
    requires w !in t.tags && |t.tags| < MAX_GROUP_CATEGORIES && |Chosen(w)| >= 2
    ensures TablesOk(t.(tags := t.tags + [w]))
  {
  }

  lemma CategoryKeepsTables(t: Tables, w: TagWord)
    requires TablesOk(t)
    ensures TablesOk(AfterCategory(t, w))
  {
    ChosenExactly(w, []);
  }

  // ---------------------------------------------------------------- runs

  /** A call from outside; initOk says what PERCETTO_INIT would give at that moment. */
  datatype Call =
    | Init(initOk: bool)
    | CreateCategory(initOk: bool, w: TagWord)
    | CreateCategoryAndCounter(initOk: bool, w: TagWord, name: Address)

  /** The tables after the counter part of a call, which is where its category is looked up. */
  function Midway(t: Tables, call: Call): Tables {
    var started := Started(t, call.initOk);
    if call.CreateCategoryAndCounter? then AfterTrack(started, call.name) else started
  }

  function After(t: Tables, call: Call): Tables {
    if call.Init? then Started(t, call.initOk) else AfterCategory(Midway(t, call), call.w)
  }

  function TablesAfter(calls: seq<Call>): Tables {
    if calls == [] then Tables(NotStarted, [], [])
    else After(TablesAfter(calls[..|calls|-1]), calls[|calls|-1])
  }

  /** What the call at index i gives. */
  function CategoryAt(calls: seq<Call>, i: nat): Found
    requires i < |calls| && !calls[i].Init?
  {
    CategoryFor(Midway(TablesAfter(calls[..i]), calls[i]), calls[i].w)
  }

  function TrackAt(calls: seq<Call>, i: nat): Option<nat>
    requires i < |calls| && calls[i].CreateCategoryAndCounter?
  {
    TrackFor(Started(TablesAfter(calls[..i]), calls[i].initOk), calls[i].name)
  }

  lemma {:induction false} TablesAlwaysOk(calls: seq<Call>)
    ensures TablesOk(TablesAfter(calls))
    decreases |calls|
  {
    if calls != [] {
      var before, call := TablesAfter(calls[..|calls|-1]), calls[|calls|-1];
      TablesAlwaysOk(calls[..|calls|-1]);
      assert TablesOk(Midway(before, call));
      if !call.Init? { CategoryKeepsTables(Midway(before, call), call.w); }
    }
  }

  /** w has been asked for: asking again gives the same and changes nothing. */
  ghost predicate CategoryFixed(t: Tables, w: TagWord, found: Found) {
    && t.status != NotStarted
    && CategoryFor(t, w) == found
    && (found.Entry? ==> w in t.tags)
    && (found.Never? && t.status == Ok && HasValidBit(w) ==> |t.tags| == MAX_GROUP_CATEGORIES)
  }

  lemma CategoryStaysFixed(t: Tables, call: Call, w: TagWord, found: Found)
    requires TablesOk(t) && CategoryFixed(t, w, found)
    ensures CategoryFixed(After(t, call), w, found)
  {
    if w in t.tags && !call.Init? {
      SettledStays(t.tags, w, call.w, MAX_GROUP_CATEGORIES);
    }
    ChosenExactly(w, []);
    if !call.Init? { ChosenExactly(call.w, []); }
  }

  lemma AskingFixes(t: Tables, w: TagWord)
    requires t.status != NotStarted && |t.tags| <= MAX_GROUP_CATEGORIES
    ensures CategoryFixed(AfterCategory(t, w), w, CategoryFor(t, w))
  {
    if CategoryFor(t, w).Entry? {
      AskingSettles(t.tags, w, MAX_GROUP_CATEGORIES);
    }
  }

  lemma CallFixesCategory(t: Tables, call: Call)
    requires TablesOk(t) && !call.Init?
    ensures CategoryFixed(After(t, call), call.w, CategoryFor(Midway(t, call), call.w))
  {
    AskingFixes(Midway(t, call), call.w);
  }

  lemma {:induction false} AnswersStay(calls: seq<Call>, i: nat, n: nat)
    requires i < n <= |calls| && !calls[i].Init?
    ensures CategoryFixed(TablesAfter(calls[..n]), calls[i].w, CategoryAt(calls, i))
    decreases n
  {
    assert calls[..n][..n-1] == calls[..n-1];
    TablesAlwaysOk(calls[..n-1]);
    if i == n - 1 {
      CallFixesCategory(TablesAfter(calls[..i]), calls[i]);
    } else {
      AnswersStay(calls, i, n - 1);
      CategoryStaysFixed(TablesAfter(calls[..n-1]), calls[n-1], calls[i].w, CategoryAt(calls, i));
    }
  }

  /** Memo stability: in every run of calls, equal tags give the same category, whether the
      table has filled up meanwhile or initialisation failed; and two calls give the same group
      only for equal tags. */
  lemma MemoStable(calls: seq<Call>, i: nat, j: nat)
    requires i < |calls| && j < |calls| && !calls[i].Init? && !calls[j].Init?
    ensures calls[i].w == calls[j].w ==> CategoryAt(calls, i) == CategoryAt(calls, j)
    ensures CategoryAt(calls, i) == CategoryAt(calls, j) && CategoryAt(calls, i).Entry? ==> calls[i].w == calls[j].w
  {
    AnswersStay(calls, i, |calls|);
    AnswersStay(calls, j, |calls|);
  }

  lemma TrackStaysFixed(t: Tables, call: Call, name: Address)
    requires t.status != NotStarted && Settled(t.names, name, MAX_TRACKS)
    ensures TrackFor(After(t, call), name) == TrackFor(t, name)
    ensures After(t, call).status == t.status && Settled(After(t, call).names, name, 32)
  {
    if call.CreateCategoryAndCounter? {
      SettledStays(t.names, name, call.name, MAX_TRACKS);
    }
  }

  lemma {:induction false} TracksStay(calls: seq<Call>, i: nat, n: nat)
    requires i < n <= |calls| && calls[i].CreateCategoryAndCounter?
    ensures TablesAfter(calls[..n]).status != NotStarted
    ensures TrackFor(TablesAfter(calls[..n]), calls[i].name) == TrackAt(calls, i)
    ensures TablesAfter(calls[..n]).status == Ok ==> Settled(TablesAfter(calls[..n]).names, calls[i].name, 32)
    decreases n
  {
    var t := TablesAfter(calls[..n-1]);
    assert calls[..n][..n-1] == calls[..n-1];
    if i == n - 1 {
      AskingSettles(Started(t, calls[i].initOk).names, calls[i].name, MAX_TRACKS);
    } else {
      TracksStay(calls, i, n - 1);
      if t.status == Ok {
        TrackStaysFixed(t, calls[n-1], calls[i].name);
      }
    }
  }

  /** The same for counters: equal names share one track for good, different names never do, and
      a counter that was refused a track is refused for good. */
  lemma CountersStable(calls: seq<Call>, i: nat, j: nat)
    requires i < |calls| && j < |calls|
    requires calls[i].CreateCategoryAndCounter? && calls[j].CreateCategoryAndCounter?
    ensures calls[i].name == calls[j].name ==> TrackAt(calls, i) == TrackAt(calls, j)
    ensures TrackAt(calls, i) == TrackAt(calls, j) && TrackAt(calls, i).Some? ==> calls[i].name == calls[j].name
  {
    TracksStay(calls, i, |calls|);
    TracksStay(calls, j, |calls|);
    var t := TablesAfter(calls);
    assert calls[..|calls|] == calls;
    TablesAlwaysOk(calls);
    if TrackAt(calls, i).Some? && t.status == Ok {
      assert Settled(t.names, calls[i].name, MAX_TRACKS);
    }
  }

  /** The first call decides for good whether initialisation has worked. */
  lemma {:induction false} StatusIsFirstOutcome(calls: seq<Call>)
    ensures TablesAfter(calls).status ==
      if calls == [] then NotStarted else if calls[0].initOk then Ok else Error
    decreases |calls|
  {
    if calls != [] {
      var prefix := calls[..|calls|-1];
      StatusIsFirstOutcome(prefix);
      assert prefix != [] ==> prefix[0] == calls[0];
      AfterKeepsStatus(TablesAfter(prefix), calls[|calls|-1]);
    }
  }

  lemma AfterKeepsStatus(t: Tables, call: Call)
    ensures After(t, call).status == if t.status == NotStarted then (if call.initOk then Ok else Error) else t.status
  {
  }

  /** When a call gets the category that is never enabled: initialisation failed, or no valid bit
      is set, or the word needs a group and the table was full before the word first came. */
  lemma NeverExactlyWhen(calls: seq<Call>, i: nat)
    requires i < |calls| && !calls[i].Init?
    ensures var t, w := TablesAfter(calls[..i+1]), calls[i].w;
      CategoryAt(calls, i).Never? <==>
        || !calls[0].initOk
        || (forall b: nat :: b < 28 ==> b !in w)
        || (|t.tags| == 32 && w !in t.tags && exists b: nat, c: nat :: b < c < 28 && b in w && c in w)
  {
    var t, w := TablesAfter(calls[..i+1]), calls[i].w;
    AnswersStay(calls, i, i + 1);
    ChosenExactly(w, []);
    TwoChosenExactly(w);
    TablesAlwaysOk(calls[..i+1]);
    StatusIsFirstOutcome(calls[..i+1]);
    assert HasValidBit(w) <==> exists b: nat :: b < 28 && b in w by {
      if b: nat :| b < 28 && b in w { assert IsValidBit(w, b); }
      if b: nat :| b < STATIC_COUNT && IsValidBit(w, b) { assert b < 28 && b in w; }
    }
  }

  /** A word needs a group exactly when it has two valid bits. */
  lemma TwoChosenExactly(w: TagWord)
    ensures |Chosen(w)| >= 2 <==> exists b: nat, c: nat :: b < c < 28 && b in w && c in w
  {
    CollectsFirstBits(w, 0, MAX_GROUP_SIZE);
    var list := Chosen(w);
    if |list| >= 2 {
      assert list[0] in list && list[1] in list;
    }
    if b: nat, c: nat :| b < c < 28 && b in w && c in w {
      assert IsValidBit(w, b) && IsValidBit(w, c);
    }
  }

  /** Tag b is the only valid one of a word. */
  ghost predicate OnlyTag(w: TagWord, b: nat) {
    forall c: nat :: c < 28 && c in w <==> c == b
  }

  /** A call gets a static category exactly when initialisation has worked and that is the only
      valid tag. */
  lemma StaticExactlyWhen(calls: seq<Call>, i: nat, b: nat)
    requires i < |calls| && !calls[i].Init?
    ensures CategoryAt(calls, i) == Static(b) <==> calls[0].initOk && OnlyTag(calls[i].w, b)
  {
    var w := calls[i].w;
    AnswersStay(calls, i, i + 1);
    TablesAlwaysOk(calls[..i+1]);
    StatusIsFirstOutcome(calls[..i+1]);
    OneChosenExactly(w, b);
    ChosenExactly(w, []);
  }

  lemma OneChosenExactly(w: TagWord, b: nat)
    ensures Chosen(w) == [b] <==> OnlyTag(w, b)
  {
    CollectsFirstBits(w, 0, MAX_GROUP_SIZE);
    if Chosen(w) == [b] {
      assert b in Chosen(w);
      forall c: nat ensures c < 28 && c in w <==> c == b {
        if c < 28 && c in w { assert IsValidBit(w, c); }
      }
    } else if OnlyTag(w, b) {
      assert b in w;
      assert b < 28;
      assert IsValidBit(w, b);
      assert FirstBits([b], w, 0, MAX_GROUP_SIZE);
      ChosenExactly(w, [b]);
    }
  }

  /** A counter is refused a track exactly when initialisation failed or 32 other names had come
      before it. */
  lemma RefusedExactlyWhen(calls: seq<Call>, i: nat)
    requires i < |calls| && calls[i].CreateCategoryAndCounter?
    ensures var t := TablesAfter(calls[..i+1]);
      TrackAt(calls, i).None? <==> !calls[0].initOk || (|t.names| == 32 && calls[i].name !in t.names)
  {
    TracksStay(calls, i, i + 1);
    TablesAlwaysOk(calls[..i+1]);
    StatusIsFirstOutcome(calls[..i+1]);
  }
}
