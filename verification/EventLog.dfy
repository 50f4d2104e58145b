/**
 The tamper-evident event log: a digest chain over append-only rows.
 */
module EventLog {
  import opened Prelude

  /** Everything an event's digest covers. */
  datatype Digested<D> = Digested(
    id: string,
    sequence: int,
    project: Option<string>,
    task: Option<string>,
    run: Option<string>,
    kind: string,
    occurredAt: int,
    actor: string,
    payload: string,
    previous: Option<D>)

  /** A stored row. The schema version is stored beside the digested fields but is not digested. */
  datatype Row<D> = Row(content: Digested<D>, schemaVersion: nat, digest: D)

  datatype NewEvent = NewEvent(
    id: string, project: Option<string>, task: Option<string>, run: Option<string>,
    kind: string, occurredAt: int, actor: string, payload: string)

  const SCHEMA_VERSION := 1

  /** The largest sequence number in the table, or zero. */
  function MaxSequence<D>(rows: seq<Row<D>>): int {
    if rows == [] then 0
    else
      var before := MaxSequence(rows[..|rows| - 1]);
      var last := rows[|rows| - 1].content.sequence;
      if before < last then last else before
  }

  /** The digest of the row with the largest sequence number, the earliest such row on a tie. */
  function LatestRow<D>(rows: seq<Row<D>>): Option<Row<D>> {
    if rows == [] then None
    else
      var before := LatestRow(rows[..|rows| - 1]);
      var last := rows[|rows| - 1];
      if before.None? || before.value.content.sequence < last.content.sequence then Some(last) else before
  }

  function Append<D>(hash: Digested<D> -> D, rows: seq<Row<D>>, e: NewEvent): seq<Row<D>> {
    var latest := LatestRow(rows);
    var content := Digested(
      e.id, MaxSequence(rows) + 1, e.project, e.task, e.run, e.kind, e.occurredAt, e.actor, e.payload,
      if latest.None? then None else Some(latest.value.digest));
    rows + [Row(content, SCHEMA_VERSION, hash(content))]
  }

  /** The log a sequence of appends produces, starting from an empty database. */
  function LogOf<D>(hash: Digested<D> -> D, events: seq<NewEvent>): seq<Row<D>> {
    if events == [] then []
    else Append(hash, LogOf(hash, events[..|events| - 1]), events[|events| - 1])
  }

  /** Sequences are 1..n, every row carries its own digest, and every row links to the one before. */
  ghost predicate Chained<D(!new)>(hash: Digested<D> -> D, rows: seq<Row<D>>) {
    forall i :: 0 <= i < |rows| ==> Linked(hash, rows, i)
  }

  ghost predicate Linked<D(!new)>(hash: Digested<D> -> D, rows: seq<Row<D>>, i: nat)
    requires i < |rows|
  {
    && rows[i].content.sequence == i + 1
    && rows[i].digest == hash(rows[i].content)
    && rows[i].content.previous == (if i == 0 then None else Some(rows[i - 1].digest))
  }

  lemma ChainedPrefix<D(!new)>(hash: Digested<D> -> D, rows: seq<Row<D>>)
    requires rows != [] && Chained(hash, rows)
    ensures Chained(hash, rows[..|rows| - 1])
  {
    var front := rows[..|rows| - 1];
    forall i | 0 <= i < |front|
      ensures Linked(hash, front, i)
    {
      assert Linked(hash, rows, i);
    }
  }

  lemma {:induction false} ChainedMaxima<D(!new)>(hash: Digested<D> -> D, rows: seq<Row<D>>)
    requires Chained(hash, rows)
    ensures MaxSequence(rows) == |rows|
    ensures LatestRow(rows) == if rows == [] then None else Some(rows[|rows| - 1])
  {
    if rows != [] {
      assert Linked(hash, rows, |rows| - 1);
      ChainedPrefix(hash, rows);
      ChainedMaxima(hash, rows[..|rows| - 1]);
    }
  }

  /** In every reachable state the log is one unbroken chain numbered from one. */
  lemma {:induction false} ReachableLogsAreChained<D(!new)>(hash: Digested<D> -> D, events: seq<NewEvent>)
    ensures Chained(hash, LogOf(hash, events)) && |LogOf(hash, events)| == |events|
  {
    if events != [] {
      var before := LogOf(hash, events[..|events| - 1]);
      ReachableLogsAreChained(hash, events[..|events| - 1]);
      ChainedMaxima(hash, before);
      forall i | 0 <= i < |events|
        ensures Linked(hash, LogOf(hash, events), i)
      {
        assert i < |before| ==> Linked(hash, before, i);
      }
    }
  }

  ghost predicate Injective<D(!new)>(hash: Digested<D> -> D) {
    forall a, b :: hash(a) == hash(b) ==> a == b
  }

  /**
   Two chained tables, of any provenance, with the same final digest are the same length and agree
   on every digested field of every event.
   */
  lemma {:induction false} SameHeadSameHistory<D(!new)>(hash: Digested<D> -> D, a: seq<Row<D>>, b: seq<Row<D>>)
    requires Injective(hash) && Chained(hash, a) && Chained(hash, b)
    requires a != [] && b != [] && a[|a| - 1].digest == b[|b| - 1].digest
    ensures |a| == |b|
    ensures forall i :: 0 <= i < |a| ==> a[i].content == b[i].content
    decreases |a|
  {
    assert Linked(hash, a, |a| - 1) && Linked(hash, b, |b| - 1);
    if |a| > 1 {
      var a', b' := a[..|a| - 1], b[..|b| - 1];
      ChainedPrefix(hash, a);
      ChainedPrefix(hash, b);
      SameHeadSameHistory(hash, a', b');
      forall i | 0 <= i < |a|
        ensures a[i].content == b[i].content
      {
        if i < |a| - 1 { assert a[i] == a'[i] && b[i] == b'[i]; }
      }
    }
  }

  /** The final digest of a reachable log commits to the events themselves. */
  lemma HeadCommitsToTheEvents<D(!new)>(hash: Digested<D> -> D, xs: seq<NewEvent>, ys: seq<NewEvent>)
    requires Injective(hash) && xs != [] && ys != []
    requires |LogOf(hash, xs)| > 0 && |LogOf(hash, ys)| > 0
    requires LogOf(hash, xs)[|LogOf(hash, xs)| - 1].digest == LogOf(hash, ys)[|LogOf(hash, ys)| - 1].digest
    ensures xs == ys
  {
    ReachableLogsAreChained(hash, xs);
    ReachableLogsAreChained(hash, ys);
    SameHeadSameHistory(hash, LogOf(hash, xs), LogOf(hash, ys));
    LogKeepsEvents(hash, xs);
    LogKeepsEvents(hash, ys);
    forall i | 0 <= i < |xs|
      ensures xs[i] == ys[i]
    {
      assert EventOf(LogOf(hash, xs)[i].content) == EventOf(LogOf(hash, ys)[i].content);
    }
  }

  function EventOf<D>(d: Digested<D>): NewEvent {
    NewEvent(d.id, d.project, d.task, d.run, d.kind, d.occurredAt, d.actor, d.payload)
  }

  lemma {:induction false} LogKeepsEvents<D(!new)>(hash: Digested<D> -> D, events: seq<NewEvent>)
    ensures |LogOf(hash, events)| == |events|
    ensures forall i :: 0 <= i < |events| ==> EventOf(LogOf(hash, events)[i].content) == events[i]
  {
    if events != [] {
      LogKeepsEvents(hash, events[..|events| - 1]);
    }
  }

  /** The events table. */
  class EventTable<D(!new)> {
    const hash: Digested<D> -> D
    var rows: seq<Row<D>>
    ghost var appended: seq<NewEvent>

    ghost predicate Valid()
      reads this
    {
      rows == LogOf(hash, appended)
    }

    constructor (hash: Digested<D> -> D)
      ensures Valid() && appended == [] && this.hash == hash
    {
      this.hash := hash;
      rows := [];
      appended := [];
    }

    method AppendEvent(e: NewEvent)
      requires Valid()
      modifies this
      ensures Valid() && appended == old(appended) + [e]
      ensures Chained(hash, rows)
      ensures |rows| == |old(rows)| + 1 && rows[..|old(rows)|] == old(rows)
    {
      var sequence := 1;
      var previous: Option<D> := None;
      ReachableLogsAreChained(hash, appended);
      ChainedMaxima(hash, rows);
      if rows != [] {
        sequence := rows[|rows| - 1].content.sequence + 1;
        previous := Some(rows[|rows| - 1].digest);
      }
      var content := Digested(
        e.id, sequence, e.project, e.task, e.run, e.kind, e.occurredAt, e.actor, e.payload, previous);
      rows := rows + [Row(content, SCHEMA_VERSION, hash(content))];
      appended := appended + [e];
      assert appended[..|appended| - 1] == old(appended);
      ReachableLogsAreChained(hash, appended);
    }
  }
}
