/** The request ledger: its rows, what the worker and the commands do to them, and when it is valid. */
module RequestLedger {
  import opened Options

  const MAX_REQUESTS := 32

  type Id = nat

  datatype State = Pending | Running | Completed | Failed | Interrupted {
    predicate Terminal() {
      Completed? || Failed? || Interrupted?
    }
  }

  datatype Operation = Build | Check | Dependencies | Refresh

  /** The fields a batch must agree on. */
  datatype Spec = Spec(operation: Operation, profile: nat, generation: nat, configuration: nat, runtime: nat)

  datatype Reason =
    WorkerInterrupted | ConfigurationChanged | NativeRefused | RuntimeChanged | DependencyPreparationFailed

  datatype Source = Source(commit: nat, tree: Option<nat>, clean: bool)

  /** A key that may be absent or hold a null, which the worker tells apart. */
  datatype ExitField = Missing | Null | Code(value: int) {
    function Get(): Option<int> {
      if Code? then Some(value) else None
    }
  }

  datatype Receipt = Receipt(runId: Option<Id>, exitCode: ExitField, before: Option<Source>, after: Option<Source>)

  const NO_RECEIPT := Receipt(None, Missing, None, None)

  datatype Result = Result(
    reason: Option<Reason>, runId: Option<Id>, exitCode: Option<int>, before: Option<Source>, after: Option<Source>)

  datatype Row = Row(id: Id, state: State, spec: Spec, batch: Option<Id>, result: Option<Result>)

  // ---------- Validity, as every reader checks it ----------

  predicate ValidResult(r: Result) {
    r.exitCode.Some? ==> 0 <= r.exitCode.value <= 255
  }

  /** The evidence a completed request must show. */
  predicate Evidence(operation: Operation, r: Result) {
    && r.reason == None && r.exitCode == Some(0)
    && (operation != Dependencies ==> r.runId.Some? && r.before.Some? && r.after.Some?)
  }

  predicate ValidRow(row: Row) {
    && (row.result.Some? ==> ValidResult(row.result.value))
    && (row.state == Pending ==> row.batch == None && row.result == None)
    && (row.state == Running ==> row.batch.Some? && row.result == None)
    && (row.state.Terminal() ==> row.batch.Some? && row.result.Some?)
    && (row.state == Completed ==> Evidence(row.spec.operation, row.result.value))
  }

  predicate Unique(rows: seq<Row>) {
    forall i, j :: 0 <= i < j < |rows| ==> rows[i].id != rows[j].id
  }

  predicate Valid(rows: seq<Row>) {
    |rows| <= MAX_REQUESTS && Unique(rows) && forall row :: row in rows ==> ValidRow(row)
  }

  method ReadQueue(rows: seq<Row>) returns (ok: bool)
    ensures ok == Valid(rows)
  {
    if |rows| > MAX_REQUESTS {
      return false;
    }
    var ids: set<Id> := {};
    for i := 0 to |rows|
      invariant forall id :: id in ids <==> exists j :: 0 <= j < i && rows[j].id == id
      invariant forall j, k :: 0 <= j < k < i ==> rows[j].id != rows[k].id
      invariant forall j :: 0 <= j < i ==> ValidRow(rows[j])
    {
      if rows[i].id in ids || !ValidRow(rows[i]) {
        return false;
      }
      ids := ids + {rows[i].id};
    }
    return true;
  }

  // ---------- What a request comes to ----------

  /** How one attempt ended: a refusal, or the receipt of the native command. */
  datatype Reply = Reply(reason: Option<Reason>, receipt: Option<Receipt>)

  function Recorded(reason: Option<Reason>, receipt: Receipt): Result {
    Result(reason, receipt.runId, receipt.exitCode.Get(), receipt.before, receipt.after)
  }

  function Outcome(reply: Reply): Result {
    Recorded(reply.reason, if reply.receipt.Some? then reply.receipt.value else NO_RECEIPT)
  }

  /** A receipt without an exit code counts as a success, one whose exit code is null does not. */
  predicate Succeeded(reply: Reply) {
    && reply.reason == None && reply.receipt.Some?
    && (reply.receipt.value.exitCode == Missing || reply.receipt.value.exitCode == Code(0))
  }

  function Settled(row: Row, reply: Reply): Row {
    row.(state := if Succeeded(reply) then Completed else Failed, result := Some(Outcome(reply)))
  }

  /** The receipts the native command returns: a run it made, or a dependency preparation it reused. */
  predicate NativeReceipt(operation: Operation, r: Receipt) {
    && r.exitCode.Code? && 0 <= r.exitCode.value <= 255 && r.before.Some? && r.after.Some?
    && (r.runId.Some? || (operation == Dependencies && r.exitCode.value == 0))
  }

  /** A refresh prepares dependencies first and checks only when that succeeded. */
  function ExecuteRequest(operation: Operation, dependencies: Receipt, main: Receipt): Reply {
    if operation == Refresh && dependencies.exitCode != Code(0)
    then Reply(Some(DependencyPreparationFailed), Some(dependencies))
    else Reply(None, Some(main))
  }

  /** Everything one attempt at a request can come to. */
  ghost predicate Possible(operation: Operation, reply: Reply) {
    || (reply.receipt == None && (reply.reason == Some(RuntimeChanged) || reply.reason == Some(ConfigurationChanged)
                                  || reply.reason == Some(NativeRefused)))
    || exists dependencies, main ::
         && NativeReceipt(if operation == Refresh then Check else operation, main)
         && NativeReceipt(Dependencies, dependencies)
         && reply == ExecuteRequest(operation, dependencies, main)
  }

  /** A settled row passes the reader's validation exactly when the receipt's exit code, if it holds
      one, is a byte and a success carries one with the evidence. A receipt with no exit code is the
      case that fails: it is settled as completed and shows none. A null one is settled as failed. A
      code that is no byte is refused before any row is written. */
  lemma SettledValid(row: Row, reply: Reply)
    requires ValidRow(row) && row.state == Running
    ensures ValidRow(Settled(row, reply)) <==>
              && (reply.receipt.Some? && reply.receipt.value.exitCode.Code? ==>
                    0 <= reply.receipt.value.exitCode.value <= 255)
              && (Succeeded(reply) ==>
                    && reply.receipt.value.exitCode != Missing
                    && (row.spec.operation != Dependencies ==>
                          && reply.receipt.value.runId.Some? && reply.receipt.value.before.Some?
                          && reply.receipt.value.after.Some?))
    ensures reply.reason == None && reply.receipt.Some? && reply.receipt.value.exitCode == Missing ==>
              Settled(row, reply).state == Completed && !ValidRow(Settled(row, reply))
    ensures reply.receipt.Some? && reply.receipt.value.exitCode == Null ==>
              Settled(row, reply).state == Failed && ValidRow(Settled(row, reply))
    ensures Possible(row.spec.operation, reply) ==> ValidRow(Settled(row, reply))
  {
  }

  // ---------- What is done to the rows ----------

  function Abandoned(row: Row): Row {
    if row.state == Running
    then row.(state := Interrupted, result := Some(Recorded(Some(WorkerInterrupted), NO_RECEIPT)))
    else row
  }

  function Taken(row: Row, spec: Spec, batch: Id): Row {
    if row.state == Pending && row.spec == spec then row.(state := Running, batch := Some(batch)) else row
  }

  function SettledIn(row: Row, ids: set<Id>, reply: Reply): Row {
    if row.id in ids then Settled(row, reply) else row
  }

  function AbandonAll(rows: seq<Row>): seq<Row> {
    seq(|rows|, i requires 0 <= i < |rows| => Abandoned(rows[i]))
  }

  function TakeAll(rows: seq<Row>, spec: Spec, batch: Id): seq<Row> {
    seq(|rows|, i requires 0 <= i < |rows| => Taken(rows[i], spec, batch))
  }

  function SettleAll(rows: seq<Row>, ids: set<Id>, reply: Reply): seq<Row> {
    seq(|rows|, i requires 0 <= i < |rows| => SettledIn(rows[i], ids, reply))
  }

  function Without(rows: seq<Row>, id: Id): seq<Row> {
    if rows == [] then []
    else if rows[0].id == id then Without(rows[1..], id)
    else [rows[0]] + Without(rows[1..], id)
  }

  predicate HasPending(rows: seq<Row>) {
    exists row :: row in rows && row.state == Pending
  }

  /** The first pending row's fields. */
  function FirstSpec(rows: seq<Row>): Spec
    requires HasPending(rows)
  {
    if rows[0].state == Pending then rows[0].spec else FirstSpec(rows[1..])
  }

  function BatchIds(rows: seq<Row>, spec: Spec): set<Id> {
    set row | row in rows && row.state == Pending && row.spec == spec :: row.id
  }

  /** Every row of the batch is still running under it. */
  predicate Held(rows: seq<Row>, ids: set<Id>, batch: Id) {
    forall row :: row in rows && row.id in ids ==> row.state == Running && row.batch == Some(batch)
  }

  /** A batch is never empty. */
  lemma {:induction false} FirstIsPending(rows: seq<Row>)
    requires HasPending(rows)
    ensures BatchIds(rows, FirstSpec(rows)) != {}
  {
    if rows[0].state == Pending {
      assert rows[0].id in BatchIds(rows, FirstSpec(rows));
    } else {
      FirstIsPending(rows[1..]);
      var id :| id in BatchIds(rows[1..], FirstSpec(rows[1..]));
      assert id in BatchIds(rows, FirstSpec(rows));
    }
  }

  lemma {:induction false} WithoutExact(rows: seq<Row>, id: Id)
    ensures forall row :: row in Without(rows, id) <==> row in rows && row.id != id
    ensures |Without(rows, id)| <= |rows|
    ensures Unique(rows) ==> Unique(Without(rows, id))
  {
    if rows != [] {
      WithoutExact(rows[1..], id);
      if Unique(rows) {
        var rest := Without(rows[1..], id);
        assert Unique(rows[1..]);
        assert forall row :: row in rest ==> row.id != rows[0].id;
        assert forall i :: 0 <= i < |rest| ==> rest[i] in rest;
      }
    }
  }

  // ---------- The file ----------

  datatype Forgetting = Forgotten | NotFound | NotTerminal

  class Ledger {
    var disk: seq<Row>

    /** Appends a new request unless the history is full. */
    method Submit(row: Row) returns (ok: bool)
      requires Valid(disk) && ValidRow(row) && row.state == Pending && forall r :: r in disk ==> r.id != row.id
      modifies this
      ensures ok == (|old(disk)| < MAX_REQUESTS)
      ensures disk == if ok then old(disk) + [row] else old(disk)
      ensures Valid(disk)
    {
      if |disk| >= MAX_REQUESTS {
        return false;
      }
      assert forall i :: 0 <= i < |disk| ==> disk[i] in disk;
      disk := disk + [row];
      return true;
    }

    method ClassifyAbandoned()
      modifies this
      ensures disk == AbandonAll(old(disk))
    {
      var rows, found := disk, false;
      for i := 0 to |rows|
        invariant |rows| == |disk| && disk == old(disk)
        invariant forall j :: 0 <= j < i ==> rows[j] == Abandoned(disk[j])
        invariant forall j :: i <= j < |rows| ==> rows[j] == disk[j]
        invariant !found ==> rows == disk
      {
        if rows[i].state == Running {
          rows, found := rows[i := Abandoned(rows[i])], true;
        }
      }
      assert rows == AbandonAll(disk);
      if found {
        disk := rows;
      }
    }

    /** Takes the first pending request and every pending one that agrees with it. */
    method TakeBatch(batch: Id) returns (taken: Option<(set<Id>, Spec)>)
      modifies this
      ensures if HasPending(old(disk))
              then taken == Some((BatchIds(old(disk), FirstSpec(old(disk))), FirstSpec(old(disk))))
                   && disk == TakeAll(old(disk), FirstSpec(old(disk)), batch)
              else taken == None && disk == old(disk)
      ensures taken.Some? ==> taken.value.0 != {}
    {
      var first := FindPending(disk);
      if first.None? {
        return None;
      }
      var rows, ids: set<Id> := disk, {};
      for i := 0 to |rows|
        invariant |rows| == |disk| && disk == old(disk)
        invariant forall j :: 0 <= j < i ==> rows[j] == Taken(disk[j], first.value, batch)
        invariant forall j :: i <= j < |rows| ==> rows[j] == disk[j]
        invariant ids == BatchIds(disk[..i], first.value)
      {
        assert disk[..i + 1] == disk[..i] + [disk[i]];
        if rows[i].state == Pending && rows[i].spec == first.value {
          ids := ids + {rows[i].id};
          rows := rows[i := rows[i].(state := Running, batch := Some(batch))];
        }
      }
      assert disk[..|disk|] == disk;
      assert rows == TakeAll(disk, first.value, batch);
      FirstIsPending(disk);
      disk := rows;
      return Some((ids, first.value));
    }

    /** Writes one result to the whole batch, or refuses when the batch is no longer as taken. */
    method SettleBatch(ids: set<Id>, batch: Id, reply: Reply) returns (ok: bool)
      modifies this
      ensures ok == Held(old(disk), ids, batch)
      ensures disk == if ok then SettleAll(old(disk), ids, reply) else old(disk)
    {
      var rows := disk;
      for i := 0 to |rows|
        invariant |rows| == |disk| && disk == old(disk)
        invariant forall j :: 0 <= j < i ==> rows[j] == SettledIn(disk[j], ids, reply)
        invariant forall j :: i <= j < |rows| ==> rows[j] == disk[j]
        invariant forall j :: 0 <= j < i && disk[j].id in ids ==>
                    disk[j].state == Running && disk[j].batch == Some(batch)
      {
        if rows[i].id in ids {
          if rows[i].state != Running || rows[i].batch != Some(batch) {
            assert disk[i] in disk;
            return false;
          }
          rows := rows[i := Settled(rows[i], reply)];
        }
      }
      assert rows == SettleAll(disk, ids, reply);
      disk := rows;
      return true;
    }

    method Forget(id: Id) returns (outcome: Forgetting)
      requires Valid(disk)
      modifies this
      ensures outcome == NotFound <==> forall row :: row in old(disk) ==> row.id != id
      ensures outcome == NotTerminal <==> exists row :: row in old(disk) && row.id == id && !row.state.Terminal()
      ensures disk == if outcome == Forgotten then Without(old(disk), id) else old(disk)
    {
      var i := 0;
      while i < |disk| && disk[i].id != id
        invariant i <= |disk| && forall j :: 0 <= j < i ==> disk[j].id != id
      {
        i := i + 1;
      }
      if i == |disk| {
        return NotFound;
      }
      assert disk[i] in disk;
      if !disk[i].state.Terminal() {
        return NotTerminal;
      }
      disk := Without(disk, id);
      return Forgotten;
    }
  }

  method FindPending(rows: seq<Row>) returns (first: Option<Spec>)
    ensures first == if HasPending(rows) then Some(FirstSpec(rows)) else None
  {
    var i := 0;
    while i < |rows| && rows[i].state != Pending
      invariant i <= |rows| && forall j :: 0 <= j < i ==> rows[j].state != Pending
      invariant HasPending(rows) <==> HasPending(rows[i..])
      invariant HasPending(rows) ==> FirstSpec(rows) == FirstSpec(rows[i..])
    {
      assert rows[i..] == [rows[i]] + rows[i + 1..];
      i := i + 1;
    }
    if i == |rows| {
      return None;
    }
    assert rows[i] in rows[i..];
    return Some(rows[i].spec);
  }
}
