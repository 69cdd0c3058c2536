/** Local launch admission: one slot, one reservation record, and the checks around a launch. */
module LaunchAdmission {
  import opened Options

  datatype Control = Available | Held | Draining

  datatype Policy = Policy(generation: nat, revision: nat, control: Control, reserve: nat)

  datatype Demand = Demand(memory: nat, cpus: nat)

  /** What the host observer reports; `high` is pressure at or above a ceiling. */
  datatype Host = Host(memory: nat, cpus: nat, high: bool)

  datatype Identity = Identity(fingerprint: nat, unit: nat, binding: nat, demand: Demand, generation: nat)

  datatype Phase = Preparing | Launching

  datatype Record = Record(identity: Identity, phase: Phase)

  const LAST_REVISION: nat := 0x7fff_ffff_ffff_ffff

  // ---------- Guards ----------

  /** The admission check: room for the demand beside the reserve, low pressure and an available node. */
  predicate Admits(policy: Policy, demand: Demand, host: Host) {
    && host.memory >= demand.memory + policy.reserve && host.cpus >= demand.cpus
    && !host.high && policy.control == Available
  }

  predicate CanReserve(policy: Policy, record: Option<Record>, demand: Demand, host: Host) {
    record == None && Admits(policy, demand, host)
  }

  predicate CanResume(policy: Policy, record: Option<Record>, identity: Identity) {
    record == Some(Record(identity.(generation := policy.generation), Preparing))
  }

  predicate CanLaunch(policy: Policy, record: Option<Record>, identity: Identity, host: Host) {
    && policy.generation == identity.generation && record == Some(Record(identity, Preparing))
    && Admits(policy, identity.demand, host)
  }

  predicate CanRelease(record: Option<Record>, identity: Identity, phase: Phase) {
    record == Some(Record(identity, phase))
  }

  predicate CanRecover(policy: Policy, record: Option<Record>, identity: Identity) {
    record.Some? && record.value.identity == identity.(generation := policy.generation)
  }

  // ---------- Every process ----------

  /** Where a process stands in its reservation. `Armed` has written the launching record under the
      policy lock and not yet started the workload; `Inside` has. */
  datatype Stage = Resting | Armed(host: Host) | Inside

  datatype Process = Process(identity: Identity, phase: Phase, stage: Stage)

  datatype Event = Launched(identity: Identity, policy: Policy, host: Host) | Removed(identity: Identity)

  datatype System = System(
    policy: Policy, record: Option<Record>, slot: Option<nat>, lock: Option<nat>,
    processes: map<nat, Process>, trace: seq<Event>)

  datatype Step =
    | Reserve(p: nat, identity: Identity, host: Host)
    | Resume(p: nat, identity: Identity)
    | Arm(p: nat, host: Host)
    | Start(p: nat)
    | Expire(p: nat)
    | Leave(p: nat)
    | Release(p: nat)
    | Exit(p: nat)
    | Die(p: nat)
    | Recover(identity: Identity, settled: bool)
    | Control(control: Control)
    | Install(policy: Policy)

  function Drop(s: System, p: nat): System {
    s.(processes := s.processes - {p}, slot := if s.slot == Some(p) then None else s.slot,
       lock := if s.lock == Some(p) then None else s.lock)
  }

  predicate At(s: System, p: nat) {
    p in s.processes
  }

  /** A step that its guards refuse changes nothing. */
  function Next(s: System, step: Step): System {
    match step
    case Reserve(p, identity, host) =>
      if s.slot == None && s.lock == None && CanReserve(s.policy, s.record, identity.demand, host)
      then
        var mine := identity.(generation := s.policy.generation);
        s.(record := Some(Record(mine, Preparing)), slot := Some(p),
           processes := s.processes[p := Process(mine, Preparing, Resting)])
      else s
    case Resume(p, identity) =>
      if s.slot == None && s.lock == None && CanResume(s.policy, s.record, identity)
      then
        s.(slot := Some(p),
           processes := s.processes[p := Process(identity.(generation := s.policy.generation), Preparing, Resting)])
      else s
    case Arm(p, host) =>
      if At(s, p) && s.processes[p].stage == Resting && s.lock == None
         && CanLaunch(s.policy, s.record, s.processes[p].identity, host)
      then
        var mine := s.processes[p].identity;
        s.(record := Some(Record(mine, Launching)), lock := Some(p),
           processes := s.processes[p := Process(mine, Launching, Armed(host))])
      else s
    case Start(p) =>
      if At(s, p) && s.processes[p].stage.Armed?
      then s.(processes := s.processes[p := s.processes[p].(stage := Inside)],
              trace := s.trace + [Launched(s.processes[p].identity, s.policy, s.processes[p].stage.host)])
      else s
    case Expire(p) =>
      if At(s, p) && s.processes[p].stage.Armed?
      then s.(lock := None, processes := s.processes[p := s.processes[p].(stage := Resting)])
      else s
    case Leave(p) =>
      if At(s, p) && s.processes[p].stage.Inside?
      then s.(lock := None, processes := s.processes[p := s.processes[p].(stage := Resting)])
      else s
    case Release(p) =>
      if At(s, p) && !s.processes[p].stage.Armed? && CanRelease(s.record, s.processes[p].identity, s.processes[p].phase)
      then s.(record := None, trace := s.trace + [Removed(s.processes[p].identity)])
      else s
    case Exit(p) => if At(s, p) && s.processes[p].stage.Resting? then Drop(s, p) else s
    case Die(p) => if At(s, p) then Drop(s, p) else s
    case Recover(identity, settled) =>
      if s.slot == None && s.lock == None && settled && CanRecover(s.policy, s.record, identity)
      then s.(record := None, trace := s.trace + [Removed(identity)])
      else s
    case Control(control) =>
      if s.lock == None && s.policy.revision != LAST_REVISION
      then s.(policy := s.policy.(control := control, revision := s.policy.revision + 1))
      else s
    case Install(policy) => if s.lock == None then s.(policy := policy) else s
  }

  function After(s: System, steps: seq<Step>): System {
    if steps == [] then s else Next(After(s, steps[..|steps| - 1]), steps[|steps| - 1])
  }

  /** No process, no record and nothing launched yet, under some installed policy. */
  function Fresh(policy: Policy): System {
    System(policy, None, None, None, map[], [])
  }

  // ---------- One process ----------

  /** The files and the owners of the two locks. */
  class Store {
    var policy: Policy
    var record: Option<Record>
    var slot: Option<nat>
    var lock: Option<nat>
  }

  class Reservation {
    const store: Store
    const me: nat
    var identity: Identity
    var phase: Phase
    var owned: bool
    var attempted: bool
    var entered: bool
    var inside: bool

    constructor (store: Store, me: nat, identity: Identity)
      ensures this.store == store && this.me == me && this.identity == identity
      ensures phase == Preparing && !owned && !attempted && !entered && !inside
    {
      this.store := store;
      this.me := me;
      this.identity := identity;
      phase := Preparing;
      owned := false;
      attempted := false;
      entered := false;
      inside := false;
    }

    /** The system as this process and the files show it. */
    ghost function View(trace: seq<Event>): System
      reads this, store
    {
      System(store.policy, store.record, store.slot, store.lock,
             if entered then map[me := Process(identity, phase, if inside then Inside else Resting)] else map[], trace)
    }

    /** Reserves afresh, or resumes exactly the preparing record of the present generation. */
    method Enter(resume: bool, host: Host, ghost trace: seq<Event>) returns (ok: bool)
      requires !entered && !inside && phase == Preparing
      modifies this, store
      ensures ok == (old(store.slot) == None && old(store.lock) == None &&
                     if resume then old(CanResume(store.policy, store.record, identity))
                     else old(CanReserve(store.policy, store.record, identity.demand, host)))
      ensures View(trace) == Next(old(View(trace)), if resume then Resume(me, old(identity))
                                                    else Reserve(me, old(identity), host))
      ensures entered == ok && (ok ==> owned) && !inside
    {
      if store.slot.Some? || store.lock.Some? {
        return false;
      }
      store.slot := Some(me);
      if resume {
        identity := identity.(generation := store.policy.generation);
        if store.record != Some(Record(identity, Preparing)) {
          store.slot := None;
          return false;
        }
        owned, entered := true, true;
        return true;
      }
      if store.record != None || !Admits(store.policy, identity.demand, host) {
        store.slot := None;
        return false;
      }
      identity := identity.(generation := store.policy.generation);
      store.record := Some(Record(identity, Preparing));
      owned, entered := true, true;
      return true;
    }

    /** Everything up to the point where the caller starts the workload. On success the policy lock is
        still held; a late deadline leaves the record launching. */
    method Launch(host: Host, late: bool, ghost trace: seq<Event>) returns (ok: bool)
      requires entered && !inside && store.lock != Some(me)
      modifies this, store
      ensures ok == (!late && old(store.lock) == None && old(CanLaunch(store.policy, store.record, identity, host)))
      ensures View(if ok then trace + [Launched(identity, store.policy, host)] else trace)
              == Next(Next(old(View(trace)), Arm(me, host)), if late then Expire(me) else Start(me))
      ensures attempted == (old(attempted) || ok) && owned == old(owned)
    {
      if store.lock.Some? {
        return false;
      }
      var policy := store.policy;
      if policy.generation != identity.generation {
        return false;
      }
      if store.record != Some(Record(identity, Preparing)) {
        return false;
      }
      if !Admits(policy, identity.demand, host) {
        return false;
      }
      store.record := Some(Record(identity, Launching));
      phase := Launching;
      if late {
        return false;
      }
      store.lock := Some(me);
      attempted, inside := true, true;
      return true;
    }

    /** Removes exactly its own record in its own phase. */
    method Release(ghost trace: seq<Event>) returns (ok: bool)
      requires entered
      modifies this, store
      ensures ok == old(CanRelease(store.record, identity, phase))
      ensures View(if ok then trace + [Removed(identity)] else trace) == Next(old(View(trace)), Step.Release(me))
      ensures owned == (old(owned) && !ok)
    {
      if store.record != Some(Record(identity, phase)) {
        return false;
      }
      store.record := None;
      owned := false;
      return true;
    }
  }

  method SetControl(store: Store, control: Control) returns (ok: bool)
    modifies store
    ensures ok == (old(store.lock) == None && old(store.policy.revision) != LAST_REVISION)
    ensures store.policy == if ok
              then old(store.policy).(control := control, revision := old(store.policy.revision) + 1)
                            else old(store.policy)
    ensures store.record == old(store.record) && store.slot == old(store.slot) && store.lock == old(store.lock)
  {
    if store.lock.Some? || store.policy.revision == LAST_REVISION {
      return false;
    }
    store.policy := store.policy.(control := control, revision := store.policy.revision + 1);
    return true;
  }

  datatype Recovery = Busy | NothingReserved | Mismatch | Unsettled | Removal

  /** Removes a reservation once its exact settlement is observed: same identity under the present
      generation, in either phase, with both locks free. The observer is asked only about such a record. */
  method RecoverReservation(store: Store, identity: Identity, settled: bool) returns (r: Recovery)
    modifies store
    ensures r == Busy <==> old(store.slot).Some? || old(store.lock).Some?
    ensures r == Removal <==> r != Busy && settled && old(CanRecover(store.policy, store.record, identity))
    ensures r == Unsettled <==> r != Busy && !settled && old(CanRecover(store.policy, store.record, identity))
    ensures r == NothingReserved <==> r != Busy && old(store.record) == None
    ensures store.record == if r == Removal then None else old(store.record)
    ensures store.policy == old(store.policy) && store.slot == old(store.slot) && store.lock == old(store.lock)
  {
    if store.slot.Some? || store.lock.Some? {
      return Busy;
    }
    if store.record.None? {
      return NothingReserved;
    }
    var expected := identity.(generation := store.policy.generation);
    assert store.record.value.phase == Preparing || store.record.value.phase == Launching;
    if store.record != Some(Record(expected, Preparing)) && store.record != Some(Record(expected, Launching)) {
      return Mismatch;
    }
    if !settled {
      return Unsettled;
    }
    store.record := None;
    return Removal;
  }

  // ---------- The invariant ----------

  /** Something was launched and its reservation not removed since. */
  predicate Open(trace: seq<Event>) {
    trace != [] && trace[|trace| - 1].Launched?
  }

  predicate LaunchedProperly(e: Event) {
    e.Launched? ==> && e.policy.control == Available && e.policy.generation == e.identity.generation
                    && Admits(e.policy, e.identity.demand, e.host)
  }

  predicate Separated(trace: seq<Event>) {
    forall i, j :: 0 <= i < j < |trace| && trace[i].Launched? && trace[j].Launched? ==>
      exists k :: i < k < j && trace[k].Removed?
  }

  ghost predicate ProcessInv(s: System, p: nat)
    requires p in s.processes
  {
    var q := s.processes[p];
    && s.slot == Some(p)
    && (s.lock == Some(p) <==> q.stage != Resting)
    && (q.stage.Armed? ==> && q.phase == Launching && s.record == Some(Record(q.identity, Launching))
                           && s.policy.generation == q.identity.generation
                           && Admits(s.policy, q.identity.demand, q.stage.host) && !Open(s.trace))
  }

  ghost predicate Inv(s: System) {
    && (forall p :: p in s.processes ==> ProcessInv(s, p))
    && (s.slot.Some? ==> s.slot.value in s.processes)
    && (s.lock.Some? ==> s.lock.value in s.processes)
    && (Open(s.trace) ==> s.record.Some? && s.record.value.phase == Launching)
    && Separated(s.trace)
    && (forall e :: e in s.trace ==> LaunchedProperly(e))
  }

  lemma SeparatedByRemoval(trace: seq<Event>, i: nat)
    requires Separated(trace) && !Open(trace) && i < |trace| && trace[i].Launched?
    ensures exists k :: i < k < |trace| && trace[k].Removed?
  {
  }

  lemma LaunchSeparates(trace: seq<Event>, e: Event)
    requires Separated(trace) && (e.Launched? ==> !Open(trace))
    ensures Separated(trace + [e])
  {
    var longer := trace + [e];
    forall i, j | 0 <= i < j < |longer| && longer[i].Launched? && longer[j].Launched?
      ensures exists k :: i < k < j && longer[k].Removed?
    {
      if j < |trace| {
        var k :| i < k < j && trace[k].Removed?;
        assert longer[k].Removed?;
      } else {
        SeparatedByRemoval(trace, i);
        var k :| i < k < |trace| && trace[k].Removed?;
        assert longer[k].Removed?;
      }
    }
  }

  lemma NextKeeps(s: System, step: Step)
    requires Inv(s)
    ensures Inv(Next(s, step))
  {
    var t := Next(s, step);
    if t.trace != s.trace {
      LaunchSeparates(s.trace, t.trace[|t.trace| - 1]);
    }
  }

  lemma {:induction false} RunsKeep(policy: Policy, steps: seq<Step>)
    ensures Inv(After(Fresh(policy), steps))
  {
    if steps != [] {
      RunsKeep(policy, steps[..|steps| - 1]);
      NextKeeps(After(Fresh(policy), steps[..|steps| - 1]), steps[|steps| - 1]);
    }
  }

  // ---------- What every run keeps ----------

  /** Between any two launches lies a removal of the reservation. */
  lemma LaunchesSeparated(policy: Policy, steps: seq<Step>, i: nat, j: nat)
    requires var trace := After(Fresh(policy), steps).trace;
             i < j < |trace| && trace[i].Launched? && trace[j].Launched?
    ensures exists k :: i < k < j && After(Fresh(policy), steps).trace[k].Removed?
  {
    RunsKeep(policy, steps);
  }

  /** A launch happens under the policy then on disk: available, of the reserved generation, and with
      room for the very demand that was reserved. */
  lemma LaunchIsAdmitted(policy: Policy, steps: seq<Step>, p: nat)
    requires var s := After(Fresh(policy), steps); Next(s, Start(p)).trace != s.trace
    ensures var s := After(Fresh(policy), steps);
            && s.policy.control == Available && s.slot == Some(p)
            && s.record == Some(Record(s.processes[p].identity, Launching))
            && s.policy.generation == s.record.value.identity.generation
            && s.processes[p].stage.Armed?
            && Admits(s.policy, s.record.value.identity.demand, s.processes[p].stage.host)
  {
    RunsKeep(policy, steps);
  }

  /** A launching record, its workload started or not, is never resumed, reserved over or launched
      again: only its own process, once, may start what it armed. */
  lemma LaunchingIsFinal(policy: Policy, steps: seq<Step>, step: Step)
    requires var s := After(Fresh(policy), steps);
             if step.Start? then Open(s.trace)
             else (step.Resume? || step.Reserve? || step.Arm?)
                  && (Open(s.trace) || (s.record.Some? && s.record.value.phase == Launching))
    ensures Next(After(Fresh(policy), steps), step) == After(Fresh(policy), steps)
  {
    RunsKeep(policy, steps);
  }

  /** At most one process holds a reservation. */
  lemma OneReservation(policy: Policy, steps: seq<Step>, p: nat, q: nat)
    requires var s := After(Fresh(policy), steps); p in s.processes && q in s.processes
    ensures p == q
  {
    RunsKeep(policy, steps);
  }
}
