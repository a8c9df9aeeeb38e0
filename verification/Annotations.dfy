/** The chain of debug annotations: percetto_event_ext_data links up to ten records, and
    TraceTrackEvent walks the chain. */
module Annotations {
  import opened Common

  const MAX_RECORDS: nat := 10

  /** percetto_event_debug_data_type. */
  datatype Kind = NoData | Bool | UInt | Int | Double | String | Pointer

  /** What a record says, apart from its link. */
  datatype Datum = Datum(kind: Kind, name: string, value: int)

  class Record {
    const datum: Datum
    var next: Record?

    constructor (datum: Datum)
      ensures this.datum == datum && next == null
    {
      this.datum := datum;
      this.next := null;
    }
  }

  // ---------------------------------------------------------------- specification

  /** The longest prefix of records that carry data. */
  function DataPrefix(data: seq<Datum>): (n: nat)
    ensures n <= |data|
    ensures forall i :: 0 <= i < n ==> data[i].kind != NoData
    ensures n < |data| ==> data[n].kind == NoData
  {
    if data == [] || data[0].kind == NoData then 0 else 1 + DataPrefix(data[1..])
  }

  /** The annotations of an event: the first record, and then all up to the first empty one. */
  function Emitted(data: seq<Datum>): seq<Datum>
    requires data != []
  {
    data[..1 + DataPrefix(data[1..])]
  }

  ghost function Data(records: seq<Record>): seq<Datum> {
    seq(|records|, i requires 0 <= i < |records| => records[i].datum)
  }

  /** Record i points to its successor when that one carries data. */
  ghost predicate LinkedAt(records: seq<Record>, i: nat)
    requires i < |records|
    reads records
  {
    records[i].next == if i + 1 < |records| && records[i+1].datum.kind != NoData then records[i+1] else null
  }

  ghost predicate Linked(records: seq<Record>)
    reads records
  {
    forall i :: 0 <= i < |records| ==> LinkedAt(records, i)
  }

  // ---------------------------------------------------------------- code

  /** One of the conditional stores of percetto_event_ext_data: record i + 1 is attached to
      record i if it carries data. */
  method Attach(r: seq<Record>, i: nat)
    requires i + 1 < |r| && Distinct(r) && r[i].next == null
    requires forall j :: 0 <= j < i ==> LinkedAt(r, j)
    requires forall j :: i < j < |r| ==> r[j].next == null
    modifies r
    ensures forall j :: 0 <= j <= i ==> LinkedAt(r, j)
    ensures forall j :: i < j < |r| ==> r[j].next == null
  {
    if r[i+1].datum.kind != NoData {
      r[i].next := r[i+1];
    }
    forall j | 0 <= j < i ensures LinkedAt(r, j) {
      assert old(LinkedAt(r, j)) && r[j] != r[i];
    }
  }

  /** The linking half of percetto_event_ext_data, on the copies of its ten arguments. */
  method Link(r: seq<Record>)
    requires |r| == MAX_RECORDS && Distinct(r)
    requires forall i :: 0 <= i < |r| ==> r[i].next == null
    modifies r
    ensures Linked(r)
  {
    Attach(r, 0);
    Attach(r, 1);
    Attach(r, 2);
    Attach(r, 3);
    Attach(r, 4);
    Attach(r, 5);
    Attach(r, 6);
    Attach(r, 7);
    Attach(r, 8);
  }

  /** The walking half of TraceTrackEvent: it ends, visits no record twice, and emits the first
      record and then the maximal run of records with data. */
  method Walk(first: Record, ghost records: seq<Record>) returns (emitted: seq<Datum>)
    requires records != [] && records[0] == first && Linked(records)
    ensures emitted == Emitted(Data(records))
  {
    emitted := [];
    var extended: Record? := first;
    ghost var n := 0;
    while extended != null
      invariant 0 <= n <= |records|
      invariant emitted == Data(records)[..n]
      invariant forall i :: 1 <= i < n ==> records[i].datum.kind != NoData
      invariant extended != null ==> n < |records| && extended == records[n]
      invariant extended != null && n > 0 ==> records[n].datum.kind != NoData
      invariant extended == null ==> n > 0 && (n < |records| ==> records[n].datum.kind == NoData)
      decreases |records| - n
    {
      assert LinkedAt(records, n);
      emitted := emitted + [extended.datum];
      extended := extended.next;
      n := n + 1;
    }
    PrefixIs(Data(records)[1..], n - 1);
  }

  lemma {:induction false} PrefixIs(data: seq<Datum>, n: nat)
    requires n <= |data| && (forall i :: 0 <= i < n ==> data[i].kind != NoData)
    requires n < |data| ==> data[n].kind == NoData
    ensures DataPrefix(data) == n
  {
    if n > 0 {
      PrefixIs(data[1..], n - 1);
    }
  }

  /** percetto_event_ext_data and the walk it leads to. */
  method EventExtData(data: seq<Datum>) returns (emitted: seq<Datum>)
    requires |data| == MAX_RECORDS
    ensures emitted == Emitted(data)
  {
    var records: seq<Record> := [];
    while |records| < MAX_RECORDS
      invariant |records| <= MAX_RECORDS && Distinct(records)
      invariant forall i :: 0 <= i < |records| ==>
        fresh(records[i]) && records[i].datum == data[i] && records[i].next == null
    {
      var r := new Record(data[|records|]);
      records := records + [r];
    }
    Link(records);
    assert Data(records) == data;
    emitted := Walk(records[0], records);
  }

  // ---------------------------------------------------------------- macro calls

  const EMPTY_RECORD := Datum(NoData, "", 0)

  /** The macros append ten empty records to the caller's and pass on the first ten. */
  function MacroArguments(user: seq<Datum>): seq<Datum> {
    (user + seq(MAX_RECORDS, _ => EMPTY_RECORD))[..MAX_RECORDS]
  }

  /** A macro call emits exactly the caller's records, up to ten. */
  lemma MacroCallEmitsUserRecords(user: seq<Datum>)
    requires user != [] && forall i :: 0 <= i < |user| ==> user[i].kind != NoData
    ensures Emitted(MacroArguments(user)) == if |user| <= 10 then user else user[..10]
  {
    var data := MacroArguments(user);
    var n := if |user| <= MAX_RECORDS then |user| else MAX_RECORDS;
    PrefixIs(data[1..], n - 1);
    assert data[..n] == user[..n];
  }

  /** An empty record cuts off what follows it: a call emits all its records exactly when none
      but the first is empty. */
  lemma AllEmittedExactlyWhenFull(data: seq<Datum>)
    requires data != []
    ensures Emitted(data) == data <==> forall i :: 1 <= i < |data| ==> data[i].kind != NoData
  {
    if forall i :: 1 <= i < |data| ==> data[i].kind != NoData {
      PrefixIs(data[1..], |data| - 1);
    } else {
      assert forall i :: 1 <= i < |data| ==> data[i] == data[1..][i - 1];
      assert |Emitted(data)| == 1 + DataPrefix(data[1..]);
    }
  }
}
