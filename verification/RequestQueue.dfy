/** Submitters, workers and the two locks: every interleaving of their atomic steps, with crashes.
    A section under the ledger lock is one step; the worker lock is held across steps. */
module RequestQueue {
  import opened Options
  import opened RequestLedger

  /** A worker process: spawned and not yet tried the worker lock, or holding it. */
  datatype Phase = Starting | Locked | Looping | Executing(batch: Id, ids: set<Id>, spec: Spec)

  datatype System = System(
    rows: seq<Row>,
    holder: Option<nat>,
    workers: map<nat, Phase>,
    awaiting: set<Id>,   // submitters that have appended and not yet spawned a worker
    used: set<Id>,       // request ids ever drawn
    batches: set<Id>,    // batch ids ever drawn
    faulted: bool)       // a worker died or a wake was lost since the worker lock was last taken

  datatype Step =
    | Submit(row: Row)
    | Spawn(id: Id, worker: nat)
    | LoseWake(id: Id)
    | Wake(worker: nat)
    | TryLock(worker: nat)
    | Classify(worker: nat)
    | Take(worker: nat, batch: Id)
    | Settle(worker: nat, reply: Reply)
    | Die(worker: nat)
    | Forget(id: Id)

  const EMPTY := System([], None, map[], {}, {}, {}, false)

  function Exit(s: System, worker: nat): System {
    s.(workers := s.workers - {worker}, holder := if s.holder == Some(worker) then None else s.holder)
  }

  ghost predicate Enabled(s: System, step: Step) {
    match step
    case Submit(row) => row.state == Pending && row.batch == None && row.result == None && row.id !in s.used
    case Spawn(id, worker) => id in s.awaiting && worker !in s.workers
    case LoseWake(id) => id in s.awaiting
    case Wake(worker) => worker !in s.workers
    case TryLock(worker) => worker in s.workers && s.workers[worker] == Starting
    case Classify(worker) => worker in s.workers && s.workers[worker] == Locked
    case Take(worker, batch) => worker in s.workers && s.workers[worker] == Looping && batch !in s.batches
    case Settle(worker, reply) =>
      worker in s.workers && s.workers[worker].Executing? && Possible(s.workers[worker].spec.operation, reply)
    case Die(worker) => worker in s.workers
    case Forget(id) => exists row :: row in s.rows && row.id == id && row.state.Terminal()
  }

  ghost function Next(s: System, step: Step): System {
    if !Enabled(s, step) then s
    else
      match step
      case Submit(row) =>
        if |s.rows| >= MAX_REQUESTS then s
        else s.(rows := s.rows + [row], awaiting := s.awaiting + {row.id}, used := s.used + {row.id})
      case Spawn(id, worker) => s.(awaiting := s.awaiting - {id}, workers := s.workers[worker := Starting])
      case LoseWake(id) => s.(awaiting := s.awaiting - {id}, faulted := true)
      case Wake(worker) => s.(workers := s.workers[worker := Starting])
      case TryLock(worker) =>
        if s.holder == None
        then s.(holder := Some(worker), workers := s.workers[worker := Locked], faulted := false)
        else Exit(s, worker)
      case Classify(worker) => s.(rows := AbandonAll(s.rows), workers := s.workers[worker := Looping])
      case Take(worker, batch) =>
        if !HasPending(s.rows) then Exit(s, worker)
        else
          var spec := FirstSpec(s.rows);
          s.(rows := TakeAll(s.rows, spec, batch), batches := s.batches + {batch},
             workers := s.workers[worker := Executing(batch, BatchIds(s.rows, spec), spec)])
      case Settle(worker, reply) =>
        var p := s.workers[worker];
        if Held(s.rows, p.ids, p.batch)
        then s.(rows := SettleAll(s.rows, p.ids, reply), workers := s.workers[worker := Looping])
        else Exit(s, worker).(faulted := true)
      case Die(worker) => Exit(s, worker).(faulted := true)
      case Forget(id) => s.(rows := Without(s.rows, id))
  }

  ghost function After(s: System, steps: seq<Step>): System {
    if steps == [] then s else Next(After(s, steps[..|steps| - 1]), steps[|steps| - 1])
  }

  // ---------- The invariant ----------

  /** Only the holder of the worker lock is past the start, and the holder is a live worker. */
  ghost predicate OneHolder(s: System) {
    && (forall w :: w in s.workers && s.workers[w] != Starting ==> s.holder == Some(w))
    && (s.holder.Some? ==> s.holder.value in s.workers && s.workers[s.holder.value] != Starting)
  }

  /** While a worker is past classifying, the running rows are exactly its own batch. */
  ghost predicate Accounted(s: System) {
    s.holder.Some? && s.holder.value in s.workers ==>
      match s.workers[s.holder.value]
      case Looping => forall row :: row in s.rows ==> row.state != Running
      case Executing(batch, ids, spec) =>
        && ids <= s.used
        && (forall row :: row in s.rows && row.state == Running ==> row.id in ids)
        && (forall row :: row in s.rows && row.id in ids ==>
              row.state == Running && row.batch == Some(batch) && row.spec == spec)
      case _ => true
  }

  ghost predicate Drawn(s: System) {
    && (forall row :: row in s.rows ==> row.id in s.used)
    && (forall row :: row in s.rows && row.batch.Some? ==> row.batch.value in s.batches)
  }

  /** A pending request has a worker that will see it, or a wake still to be tried. */
  ghost predicate Awake(s: System) {
    HasPending(s.rows) && !s.faulted ==> WillBeSeen(s)
  }

  ghost predicate Inv(s: System) {
    Valid(s.rows) && OneHolder(s) && Accounted(s) && Drawn(s) && Awake(s)
  }

  // ---------- The steps keep it ----------

  lemma TakeKeepsValid(rows: seq<Row>, spec: Spec, batch: Id)
    requires Valid(rows)
    ensures Valid(TakeAll(rows, spec, batch))
  {
    assert forall i :: 0 <= i < |rows| ==> rows[i] in rows;
  }

  lemma AbandonKeepsValid(rows: seq<Row>)
    requires Valid(rows)
    ensures Valid(AbandonAll(rows))
  {
    forall i | 0 <= i < |rows| ensures ValidRow(AbandonAll(rows)[i]) {
      assert rows[i] in rows;
    }
  }

  lemma SettleKeepsValid(rows: seq<Row>, ids: set<Id>, batch: Id, spec: Spec, reply: Reply)
    requires Valid(rows) && Held(rows, ids, batch) && Possible(spec.operation, reply)
    requires forall row :: row in rows && row.id in ids ==> row.spec == spec
    ensures Valid(SettleAll(rows, ids, reply))
  {
  }

  lemma SubmitKeeps(s: System, row: Row)
    requires Inv(s)
    ensures Inv(Next(s, Submit(row)))
  {
  }

  lemma ProcessKeeps(s: System, step: Step)
    requires Inv(s) && (step.Spawn? || step.LoseWake? || step.Wake? || step.TryLock? || step.Die?)
    ensures Inv(Next(s, step))
  {
    var t := Next(s, step);
    if step.Spawn? && Enabled(s, step) {
      assert t.workers[step.worker] == Starting;
    }
    if step.Wake? && Enabled(s, step) {
      assert t.workers[step.worker] == Starting;
    }
  }

  lemma ClassifyKeeps(s: System, worker: nat)
    requires Inv(s)
    ensures Inv(Next(s, Classify(worker)))
  {
    if Enabled(s, Classify(worker)) {
      AbandonKeepsValid(s.rows);
      var t := Next(s, Classify(worker));
      forall i | 0 <= i < |s.rows|
        ensures t.rows[i].state != Running && t.rows[i].id in t.used
        ensures t.rows[i].batch.Some? ==> t.rows[i].batch.value in t.batches
      {
        assert s.rows[i] in s.rows;
      }
    }
  }

  lemma TakeKeeps(s: System, worker: nat, batch: Id)
    requires Inv(s)
    ensures Inv(Next(s, Take(worker, batch)))
  {
    if Enabled(s, Take(worker, batch)) && HasPending(s.rows) {
      TakeKeepsValid(s.rows, FirstSpec(s.rows), batch);
      var t := Next(s, Take(worker, batch));
      forall i | 0 <= i < |s.rows|
        ensures (t.rows[i].state == Running <==> t.rows[i].id in t.workers[worker].ids)
        ensures t.rows[i].state == Running ==>
                  t.rows[i].batch == Some(batch) && t.rows[i].spec == t.workers[worker].spec
        ensures t.rows[i].id in t.used && (t.rows[i].batch.Some? ==> t.rows[i].batch.value in t.batches)
      {
        TakenIsBatch(s.rows, FirstSpec(s.rows), batch, i);
      }
    }
  }

  lemma TakenIsBatch(rows: seq<Row>, spec: Spec, batch: Id, i: nat)
    requires Unique(rows) && i < |rows| && forall row :: row in rows ==> row.state != Running
    ensures rows[i] in rows
    ensures Taken(rows[i], spec, batch).state == Running <==> rows[i].id in BatchIds(rows, spec)
  {
  }

  lemma SettleKeeps(s: System, worker: nat, reply: Reply)
    requires Inv(s)
    ensures Inv(Next(s, Settle(worker, reply)))
    ensures Enabled(s, Settle(worker, reply)) ==> Held(s.rows, s.workers[worker].ids, s.workers[worker].batch)
  {
    if Enabled(s, Settle(worker, reply)) {
      var p := s.workers[worker];
      SettleKeepsValid(s.rows, p.ids, p.batch, p.spec, reply);
      assert forall i :: 0 <= i < |s.rows| ==> s.rows[i] in s.rows;
    }
  }

  lemma ForgetKeeps(s: System, id: Id)
    requires Inv(s)
    ensures Inv(Next(s, Forget(id)))
  {
    WithoutExact(s.rows, id);
  }

  lemma NextKeeps(s: System, step: Step)
    requires Inv(s)
    ensures Inv(Next(s, step))
  {
    match step
    case Submit(row) => SubmitKeeps(s, row);
    case Classify(worker) => ClassifyKeeps(s, worker);
    case Take(worker, batch) => TakeKeeps(s, worker, batch);
    case Settle(worker, reply) => SettleKeeps(s, worker, reply);
    case Forget(id) => ForgetKeeps(s, id);
    case _ => ProcessKeeps(s, step);
  }

  lemma {:induction false} RunsKeep(s: System, steps: seq<Step>)
    requires Inv(s)
    ensures Inv(After(s, steps))
  {
    if steps != [] {
      RunsKeep(s, steps[..|steps| - 1]);
      NextKeeps(After(s, steps[..|steps| - 1]), steps[|steps| - 1]);
    }
  }

  // ---------- No wake is lost ----------

  /** Since the worker lock was last taken, no worker died and no wake was lost. */
  predicate Faultless(steps: seq<Step>) {
    forall i :: 0 <= i < |steps| ==> !steps[i].Die? && !steps[i].LoseWake?
  }

  lemma {:induction false} FaultlessUnfaulted(s: System, steps: seq<Step>)
    requires Inv(s) && !s.faulted && Faultless(steps)
    ensures !After(s, steps).faulted
  {
    if steps != [] {
      var before := steps[..|steps| - 1];
      FaultlessUnfaulted(s, before);
      RunsKeep(s, before);
      var last := steps[|steps| - 1];
      if last.Settle? {
        SettleKeeps(After(s, before), last.worker, last.reply);
      }
    }
  }

  /** A worker holds the lock, or a wake has not yet tried it. */
  ghost predicate WillBeSeen(s: System) {
    s.holder.Some? || s.awaiting != {} || exists w :: w in s.workers && s.workers[w] == Starting
  }

  /** In every interleaving without a worker crash or a failed spawn, a pending request has a worker
      holding the lock or a wake that has not yet tried it. */
  lemma NoLostWake(steps: seq<Step>)
    requires Faultless(steps)
    ensures var s := After(EMPTY, steps); HasPending(s.rows) ==> WillBeSeen(s)
  {
    RunsKeep(EMPTY, steps);
    FaultlessUnfaulted(EMPTY, steps);
  }

  /** Whatever faults came before, one wake that gets the lock restores the guarantee for every faultless
      continuation. */
  lemma WakeRepairs(before: seq<Step>, worker: nat, steps: seq<Step>)
    requires var s := After(EMPTY, before);
             worker in s.workers && s.workers[worker] == Starting && s.holder == None
    requires Faultless(steps)
    ensures var t := After(Next(After(EMPTY, before), TryLock(worker)), steps); HasPending(t.rows) ==> WillBeSeen(t)
  {
    RunsKeep(EMPTY, before);
    var s := After(EMPTY, before);
    NextKeeps(s, TryLock(worker));
    RunsKeep(Next(s, TryLock(worker)), steps);
    FaultlessUnfaulted(Next(s, TryLock(worker)), steps);
  }

  /** In every run, with crashes anywhere, every ledger written passes the reader's validation, at
      most one worker is past the start, and the batch a worker settles is as it took it. */
  lemma EveryRun(steps: seq<Step>, worker: nat, reply: Reply)
    ensures var s := After(EMPTY, steps);
            && Valid(s.rows)
            && (forall w, v :: w in s.workers && v in s.workers && s.workers[w] != Starting && s.workers[v] != Starting
                               ==> w == v)
            && (Enabled(s, Settle(worker, reply)) ==> Held(s.rows, s.workers[worker].ids, s.workers[worker].batch))
  {
    RunsKeep(EMPTY, steps);
    SettleKeeps(After(EMPTY, steps), worker, reply);
  }

  // ---------- The life of a request ----------

  function Rank(state: State): nat {
    match state
    case Pending => 0
    case Running => 1
    case _ => 2
  }

  /** `b` is a later view of the row `a`: it never goes back, and keeps its batch and its result. */
  predicate Later(a: Row, b: Row) {
    && a.id == b.id && a.spec == b.spec && Rank(a.state) <= Rank(b.state)
    && (a.batch.Some? ==> b.batch == a.batch)
    && (a.state.Terminal() ==> b == a)
  }

  ghost predicate Follows(s: System, t: System) {
    && s.used <= t.used
    && (forall b :: b in t.rows && b.id in s.used ==> exists a :: a in s.rows && a.id == b.id)
    && (forall a, b :: a in s.rows && b in t.rows && a.id == b.id ==> Later(a, b))
  }

  lemma SameId(rows: seq<Row>, a: Row, b: Row)
    requires Unique(rows) && a in rows && b in rows && a.id == b.id
    ensures a == b
  {
  }

  lemma InPlaceLater(s: System, t: System, a: Row, b: Row)
    requires Inv(s) && |t.rows| == |s.rows| && a in s.rows && b in t.rows && a.id == b.id
    requires forall i :: 0 <= i < |s.rows| ==> Later(s.rows[i], t.rows[i])
    ensures Later(a, b)
  {
    var i :| 0 <= i < |t.rows| && t.rows[i] == b;
    assert Later(s.rows[i], b);
    SameId(s.rows, a, s.rows[i]);
  }

  /** Rows updated in place follow from the rows at the same positions. */
  lemma InPlaceFollows(s: System, t: System)
    requires Inv(s) && |t.rows| == |s.rows| && t.used == s.used
    requires forall i :: 0 <= i < |s.rows| ==> Later(s.rows[i], t.rows[i])
    ensures Follows(s, t)
  {
    forall b | b in t.rows ensures exists a :: a in s.rows && a.id == b.id {
      var i :| 0 <= i < |t.rows| && t.rows[i] == b;
      assert s.rows[i] in s.rows && Later(s.rows[i], b);
    }
    forall a, b | a in s.rows && b in t.rows && a.id == b.id ensures Later(a, b) {
      InPlaceLater(s, t, a, b);
    }
  }

  lemma SubsetFollows(s: System, t: System)
    requires Inv(s) && s.used <= t.used
    requires forall b :: b in t.rows ==> b in s.rows || b.id !in s.used
    ensures Follows(s, t)
  {
  }

  lemma NextFollows(s: System, step: Step)
    requires Inv(s)
    ensures Follows(s, Next(s, step))
  {
    if step.Classify? || step.Take? || step.Settle? {
      RewritesFollow(s, step);
    } else {
      if step.Forget? {
        WithoutExact(s.rows, step.id);
      }
      SubsetFollows(s, Next(s, step));
    }
  }

  lemma RewritesFollow(s: System, step: Step)
    requires Inv(s) && (step.Classify? || step.Take? || step.Settle?)
    ensures Follows(s, Next(s, step))
  {
    var t := Next(s, step);
    assert forall i :: 0 <= i < |s.rows| ==> s.rows[i] in s.rows;
    forall i | 0 <= i < |s.rows| ensures |t.rows| == |s.rows| && Later(s.rows[i], t.rows[i]) {
      assert ValidRow(s.rows[i]);
    }
    InPlaceFollows(s, t);
  }

  lemma FollowsTransitive(s: System, t: System, u: System)
    requires Inv(s) && Inv(t) && Follows(s, t) && Follows(t, u)
    ensures Follows(s, u)
  {
    forall b | b in u.rows && b.id in s.used ensures exists a :: a in s.rows && a.id == b.id {
      var m :| m in t.rows && m.id == b.id;
    }
    forall a, b | a in s.rows && b in u.rows && a.id == b.id ensures Later(a, b) {
      assert a.id in s.used;
      var m :| m in t.rows && m.id == b.id;
      assert Later(a, m) && Later(m, b);
    }
  }

  /** Between any two moments of any run, crashes included: a request never returns to pending, never
      changes batch or result, and once forgotten never comes back. */
  lemma {:induction false} RequestsProgress(before: seq<Step>, more: seq<Step>)
    ensures Follows(After(EMPTY, before), After(After(EMPTY, before), more))
  {
    var s := After(EMPTY, before);
    RunsKeep(EMPTY, before);
    if more == [] {
      SubsetFollows(s, s);
    } else {
      RequestsProgress(before, more[..|more| - 1]);
      RunsKeep(s, more[..|more| - 1]);
      var t := After(s, more[..|more| - 1]);
      NextFollows(t, more[|more| - 1]);
      FollowsTransitive(s, t, Next(t, more[|more| - 1]));
    }
  }

  ghost predicate Executes(s: System, worker: nat, row: Row) {
    worker in s.workers && s.workers[worker].Executing? && row in s.rows && row.id in s.workers[worker].ids
  }

  /** While a worker executes, no other step touches the rows of its batch. */
  lemma OthersLeaveAlone(s: System, step: Step, worker: nat, row: Row)
    requires Inv(s) && Executes(s, worker, row) && !step.Settle?
    ensures row.state == Running && row in Next(s, step).rows
    ensures forall b :: b in Next(s, step).rows ==> b in s.rows || b.id !in s.used
  {
    if step.Forget? {
      WithoutExact(s.rows, step.id);
      if Enabled(s, step) {
        var gone :| gone in s.rows && gone.id == step.id && gone.state.Terminal();
      }
    }
  }

  lemma SettlingNeverInterrupts(s: System, w: nat, reply: Reply, worker: nat, row: Row)
    requires Inv(s) && Executes(s, worker, row)
    ensures forall r :: r in Next(s, Settle(w, reply)).rows && r.id == row.id ==> r.state != Interrupted
  {
  }

  /** No step of any run classes a row as interrupted while a live worker is executing it. */
  lemma LiveNeverInterrupted(before: seq<Step>, step: Step, worker: nat, row: Row)
    requires Executes(After(EMPTY, before), worker, row)
    ensures forall r :: r in Next(After(EMPTY, before), step).rows && r.id == row.id ==> r.state != Interrupted
  {
    var s := After(EMPTY, before);
    RunsKeep(EMPTY, before);
    if step.Settle? {
      SettlingNeverInterrupts(s, step.worker, step.reply, worker, row);
    } else {
      OthersLeaveAlone(s, step, worker, row);
      forall r | r in Next(s, step).rows && r.id == row.id ensures r.state != Interrupted {
        SameId(s.rows, r, row);
      }
    }
  }
}
