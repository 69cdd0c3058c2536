/** Measured slot capacity and the admissions it bounds. */
module SlotAdmission {
  import opened Options
  import opened ExecutionRoles

  /** A contention measurement: how many tasks were offered, ran at once, finished and were validated. */
  datatype Measurement = Measurement(
    offered: nat, simultaneous: nat, started: nat, settled: nat, validated: nat, p50: nat, p90: nat,
    cpu: Pressure, memory: Pressure, swapStart: nat, swapPeak: nat, swapEnd: nat, thermal: Pressure, unfinished: nat)

  datatype Capacity = Capacity(
    node: nat, enrollmentGeneration: nat, capabilityGeneration: nat, role: Role, profile: Profile, slot: Slot,
    maxConcurrent: nat, contention: nat, measurement: Measurement, accepted: bool)

  datatype Lease = Lease(id: nat, node: nat, slots: seq<Slot>, exclusive: bool)

  predicate Bounded(p: Pressure) {
    !p.Critical? && !p.Unknown?
  }

  predicate ValidCapacity(c: Capacity) {
    var m := c.measurement;
    && 1 <= c.maxConcurrent <= 16
    && m.offered <= 16 && m.settled <= 16 && m.validated <= 16
    && m.simultaneous <= m.started <= m.offered && m.settled <= m.started && m.validated <= m.settled
    && 1 <= m.p50 <= m.p90 && m.swapPeak >= m.swapStart && m.swapPeak >= m.swapEnd
    && m.unfinished == m.offered - m.settled
    && (c.accepted ==>
          && m.validated > 0 && m.unfinished == 0 && m.settled == m.offered && m.validated == m.settled
          && m.simultaneous >= c.maxConcurrent && m.validated >= c.maxConcurrent
          && Bounded(m.cpu) && Bounded(m.memory) && !m.thermal.Critical?)
  }

  predicate AllValid(capacities: seq<Capacity>) {
    forall i :: 0 <= i < |capacities| ==> ValidCapacity(capacities[i])
  }

  // ---------- What the node has been measured to hold ----------

  predicate Counts(node: Node, canaries: seq<Canary>, c: Capacity) {
    && c.enrollmentGeneration == node.enrollmentGeneration && c.capabilityGeneration == node.capabilityGeneration
    && c.accepted && c.profile in AcceptedProfiles(node, canaries, c.role)
  }

  function Get(m: map<Slot, nat>, slot: Slot): nat {
    if slot in m then m[slot] else 0
  }

  function Larger(a: nat, b: nat): nat {
    if a < b then b else a
  }

  function Measured(node: Node, canaries: seq<Canary>, capacities: seq<Capacity>): map<Slot, nat> {
    if capacities == [] then map[]
    else
      var m := Measured(node, canaries, capacities[..|capacities| - 1]);
      var c := capacities[|capacities| - 1];
      if Counts(node, canaries, c) then m[c.slot := Larger(Get(m, c.slot), c.maxConcurrent)] else m
  }

  method MeasuredSlotCapacity(node: Node, canaries: seq<Canary>, capacities: seq<Capacity>)
    returns (slots: Option<map<Slot, nat>>)
    ensures slots == if ValidCanaries(node, canaries) && AllValid(capacities)
                        && (forall i :: 0 <= i < |capacities| ==> capacities[i].node == node.id)
                     then Some(Measured(node, canaries, capacities)) else None
  {
    var known := CollectCanaries(node, canaries);
    if known.None? {
      return None;
    }
    var m: map<Slot, nat> := map[];
    for i := 0 to |capacities|
      invariant m == Measured(node, canaries, capacities[..i]) && AllValid(capacities[..i])
      invariant forall j :: 0 <= j < i ==> capacities[j].node == node.id
    {
      var c := capacities[i];
      if !ValidCapacity(c) || c.node != node.id {
        return None;
      }
      assert capacities[..i + 1][..i] == capacities[..i];
      if Counts(node, canaries, c) {
        m := m[c.slot := Larger(Get(m, c.slot), c.maxConcurrent)];
      }
    }
    assert capacities[..|capacities|] == capacities;
    return Some(m);
  }

  /** A slot's measured capacity is the largest accepted concurrency, and some receipt shows it. */
  lemma {:induction false} MeasuredIsLargest(node: Node, canaries: seq<Canary>, capacities: seq<Capacity>, slot: Slot)
    ensures forall i :: 0 <= i < |capacities| && Counts(node, canaries, capacities[i]) && capacities[i].slot == slot ==>
              capacities[i].maxConcurrent <= Get(Measured(node, canaries, capacities), slot)
    ensures slot in Measured(node, canaries, capacities) ==>
              exists i :: 0 <= i < |capacities| && Counts(node, canaries, capacities[i]) && capacities[i].slot == slot
                          && capacities[i].maxConcurrent == Measured(node, canaries, capacities)[slot]
  {
    if capacities != [] {
      var last := |capacities| - 1;
      var before := capacities[..last];
      MeasuredIsLargest(node, canaries, before, slot);
      assert forall i :: 0 <= i < last ==> before[i] == capacities[i];
      if slot in Measured(node, canaries, before) {
        var i :| 0 <= i < last && Counts(node, canaries, before[i]) && before[i].slot == slot
                 && before[i].maxConcurrent == Measured(node, canaries, before)[slot];
        assert Counts(node, canaries, capacities[i]);
      }
    }
  }

  // ---------- Capacity for one workload ----------

  predicate Relevant(node: Node, workload: Workload, c: Capacity) {
    && c.node == node.id
    && c.enrollmentGeneration == node.enrollmentGeneration && c.capabilityGeneration == node.capabilityGeneration
    && c.role == RoleOf(workload.operation) && c.profile == workload.profile && c.accepted
  }

  function Slots(groups: map<nat, map<Slot, nat>>, contention: nat): map<Slot, nat> {
    if contention in groups then groups[contention] else map[]
  }

  /** The relevant receipts by contention run; `None` when one run disagrees with itself. */
  function Grouped(node: Node, workload: Workload, capacities: seq<Capacity>): Option<map<nat, map<Slot, nat>>> {
    if capacities == [] then Some(map[])
    else
      match Grouped(node, workload, capacities[..|capacities| - 1])
      case None => None
      case Some(groups) =>
        var c := capacities[|capacities| - 1];
        if !Relevant(node, workload, c) then Some(groups)
        else
          var slots := Slots(groups, c.contention);
          if c.slot in slots && slots[c.slot] != c.maxConcurrent then None
          else Some(groups[c.contention := slots[c.slot := c.maxConcurrent]])
  }

  method GroupCapacities(node: Node, workload: Workload, capacities: seq<Capacity>)
    returns (groups: Option<map<nat, map<Slot, nat>>>)
    ensures groups == if AllValid(capacities) then Grouped(node, workload, capacities) else None
  {
    var g: map<nat, map<Slot, nat>> := map[];
    for i := 0 to |capacities|
      invariant AllValid(capacities[..i]) && Grouped(node, workload, capacities[..i]) == Some(g)
    {
      var c := capacities[i];
      assert capacities[..i + 1][..i] == capacities[..i];
      if !ValidCapacity(c) {
        return None;
      }
      if Relevant(node, workload, c) {
        var slots := Slots(g, c.contention);
        if c.slot in slots && slots[c.slot] != c.maxConcurrent {
          DisagreementStays(node, workload, capacities, i + 1);
          return None;
        }
        g := g[c.contention := slots[c.slot := c.maxConcurrent]];
      }
    }
    assert capacities[..|capacities|] == capacities;
    return Some(g);
  }

  lemma {:induction false} DisagreementStays(node: Node, workload: Workload, capacities: seq<Capacity>, n: nat)
    requires n <= |capacities| && Grouped(node, workload, capacities[..n]) == None
    ensures Grouped(node, workload, capacities) == None
    decreases |capacities| - n
  {
    if n == |capacities| {
      assert capacities[..n] == capacities;
    } else {
      assert capacities[..n + 1][..n] == capacities[..n];
      DisagreementStays(node, workload, capacities, n + 1);
    }
  }

  /** Every grouped figure is some relevant receipt's. */
  lemma {:induction false} GroupedFromReceipt(node: Node, workload: Workload, capacities: seq<Capacity>,
                                              contention: nat, slot: Slot)
    requires var g := Grouped(node, workload, capacities);
             g.Some? && contention in g.value && slot in g.value[contention]
    ensures exists i :: 0 <= i < |capacities| && Relevant(node, workload, capacities[i]) && capacities[i].slot == slot
                        && capacities[i].maxConcurrent == Grouped(node, workload, capacities).value[contention][slot]
  {
    var last := |capacities| - 1;
    var before := Grouped(node, workload, capacities[..last]).value;
    var c := capacities[last];
    if !(Relevant(node, workload, c) && c.contention == contention && c.slot == slot) {
      assert contention in before && slot in before[contention];
      GroupedFromReceipt(node, workload, capacities[..last], contention, slot);
      var i :| 0 <= i < last && Relevant(node, workload, capacities[..last][i]) && capacities[..last][i].slot == slot
               && capacities[..last][i].maxConcurrent == before[contention][slot];
      assert capacities[..last][i] == capacities[i];
    }
  }

  /** The run measured every slot the workload claims. */
  predicate Complete(slots: map<Slot, nat>, claims: seq<Slot>) {
    forall i :: 0 <= i < |claims| ==> claims[i] in slots
  }

  predicate HasComplete(groups: map<nat, map<Slot, nat>>, claims: seq<Slot>) {
    exists contention :: contention in groups && Complete(groups[contention], claims)
  }

  /** Every complete run has room for one more in the slot: what comparing with their least says. */
  predicate Room(groups: map<nat, map<Slot, nat>>, claims: seq<Slot>, slot: Slot, held: nat)
    requires slot in claims
  {
    forall contention :: contention in groups && Complete(groups[contention], claims) ==>
        held < groups[contention][slot]
  }

  /** The least capacity of a slot over the complete runs. */
  method LeastCapacity(groups: map<nat, map<Slot, nat>>, claims: seq<Slot>, slot: Slot) returns (least: nat)
    requires slot in claims && HasComplete(groups, claims)
    ensures exists c :: c in groups && Complete(groups[c], claims) && groups[c][slot] == least
    ensures forall c :: c in groups && Complete(groups[c], claims) ==> least <= groups[c][slot]
  {
    var rest := groups.Keys;
    var found: Option<nat> := None;
    while rest != {}
      invariant rest <= groups.Keys
      invariant found.None? ==> forall c :: c in groups && c !in rest ==> !Complete(groups[c], claims)
      invariant found.Some? ==>
                  (exists c :: c in groups && Complete(groups[c], claims) && groups[c][slot] == found.value)
      invariant found.Some? ==>
                  forall c :: c in groups && c !in rest && Complete(groups[c], claims) ==>
                      found.value <= groups[c][slot]
    {
      var c :| c in rest;
      rest := rest - {c};
      if Complete(groups[c], claims) && (found.None? || groups[c][slot] < found.value) {
        found := Some(groups[c][slot]);
      }
    }
    least := found.value;
  }

  // ---------- What is held ----------

  function Usage(leases: seq<Lease>, slot: Slot): nat {
    if leases == [] then 0
    else Usage(leases[..|leases| - 1], slot) + (if slot in leases[|leases| - 1].slots then 1 else 0)
  }

  predicate AnyExclusive(leases: seq<Lease>) {
    exists i :: 0 <= i < |leases| && leases[i].exclusive
  }

  predicate ValidLeases(node: Node, leases: seq<Lease>) {
    && (forall i :: 0 <= i < |leases| ==> leases[i].node == node.id && Distinct(leases[i].slots))
    && (forall i, j :: 0 <= i < j < |leases| ==> leases[i].id != leases[j].id)
  }

  method PhysicalSlotUsage(node: Node, leases: seq<Lease>)
    returns (r: Option<map<Slot, nat>>, count: nat, exclusive: bool)
    ensures r.Some? <==> ValidLeases(node, leases)
    ensures r.Some? ==> (forall slot :: Get(r.value, slot) == Usage(leases, slot)) && count == |leases|
                        && exclusive == AnyExclusive(leases)
  {
    var usage: map<Slot, nat> := map[];
    var ids: set<nat> := {};
    count, exclusive := 0, false;
    for i := 0 to |leases|
      invariant forall slot :: Get(usage, slot) == Usage(leases[..i], slot)
      invariant count == i && exclusive == AnyExclusive(leases[..i]) && ValidLeases(node, leases[..i])
      invariant forall id :: id in ids <==> exists j :: 0 <= j < i && leases[j].id == id
    {
      var lease := leases[i];
      if lease.node != node.id || !Distinct(lease.slots) || lease.id in ids {
        return None, count, exclusive;
      }
      assert leases[..i + 1][..i] == leases[..i];
      ids := ids + {lease.id};
      count, exclusive := count + 1, exclusive || lease.exclusive;
      usage := AddSlots(usage, lease.slots);
    }
    assert leases[..|leases|] == leases;
    return Some(usage), count, exclusive;
  }

  method AddSlots(usage: map<Slot, nat>, slots: seq<Slot>) returns (more: map<Slot, nat>)
    requires Distinct(slots)
    ensures forall slot :: Get(more, slot) == Get(usage, slot) + (if slot in slots then 1 else 0)
  {
    more := usage;
    for k := 0 to |slots|
      invariant forall slot :: Get(more, slot) == Get(usage, slot) + (if slot in slots[..k] then 1 else 0)
    {
      assert slots[k] !in slots[..k];
      assert slots[..k + 1] == slots[..k] + [slots[k]];
      more := more[slots[k] := Get(more, slots[k]) + 1];
    }
    assert slots[..|slots|] == slots;
  }

  // ---------- Admission ----------

  datatype Decision = Invalid | Refused | Admitted(leaseRequired: bool, claims: seq<Slot>)

  predicate Pressured(node: Node) {
    !Bounded(node.cpuPressure) || !Bounded(node.memoryPressure) || !Bounded(node.swapPressure) || !Bounded(node.thermal)
  }

  /** Everything an admission rests on, in one place. */
  predicate Admissible(workload: Workload, node: Node, canaries: seq<Canary>, capacities: seq<Capacity>,
                       leases: seq<Lease>)
  {
    var claims := Claims(workload.operation, workload.profile);
    var groups := Grouped(node, workload, capacities);
    && ValidWorkload(workload) && Suits(workload, node, canaries)
    && workload.profile in AcceptedProfiles(node, canaries, RoleOf(workload.operation))
    && groups.Some? && HasComplete(groups.value, claims)
    && !Pressured(node)
    && !(workload.profile == Exclusive && |leases| > 0) && !AnyExclusive(leases)
    && forall i :: 0 <= i < |claims| ==> Room(groups.value, claims, claims[i], Usage(leases, claims[i]))
  }

  method HasRoom(groups: map<nat, map<Slot, nat>>, claims: seq<Slot>, leases: seq<Lease>, usage: map<Slot, nat>)
    returns (room: bool)
    requires HasComplete(groups, claims) && forall slot :: Get(usage, slot) == Usage(leases, slot)
    ensures room == forall i :: 0 <= i < |claims| ==> Room(groups, claims, claims[i], Usage(leases, claims[i]))
  {
    for i := 0 to |claims|
      invariant forall j :: 0 <= j < i ==> Room(groups, claims, claims[j], Usage(leases, claims[j]))
    {
      var least := LeastCapacity(groups, claims, claims[i]);
      if least <= Get(usage, claims[i]) {
        return false;
      }
    }
    return true;
  }

  method LocalAdmission(workload: Workload, node: Node, canaries: seq<Canary>, capacities: seq<Capacity>,
                        leases: seq<Lease>)
    returns (decision: Decision)
    ensures decision.Admitted? ==>
              && ValidCanaries(node, canaries) && AllValid(capacities) && ValidLeases(node, leases)
              && Admissible(workload, node, canaries, capacities, leases)
              && decision.claims == Claims(workload.operation, workload.profile)
              && decision.leaseRequired == (decision.claims != [] || workload.profile == Exclusive)
    ensures (&& ValidCanaries(node, canaries) && AllValid(capacities) && ValidLeases(node, leases)
             && Admissible(workload, node, canaries, capacities, leases)) ==> decision.Admitted?
    ensures !ValidWorkload(workload) || !ValidCanaries(node, canaries) ==> decision == Invalid
  {
    if !ValidWorkload(workload) {
      return Invalid;
    }
    var known := CollectCanaries(node, canaries);
    if known.None? {
      return Invalid;
    }
    if !Suits(workload, node, canaries)
       || workload.profile !in AcceptedProfiles(node, canaries, RoleOf(workload.operation)) {
      return Refused;
    }
    var groups := GroupCapacities(node, workload, capacities);
    if groups.None? {
      return Invalid;
    }
    var claims := Claims(workload.operation, workload.profile);
    if !HasComplete(groups.value, claims) || Pressured(node) {
      return Refused;
    }
    var usage, count, exclusive := PhysicalSlotUsage(node, leases);
    if usage.None? {
      return Invalid;
    }
    if (workload.profile == Exclusive && count > 0) || exclusive {
      return Refused;
    }
    var room := HasRoom(groups.value, claims, leases, usage.value);
    if !room {
      return Refused;
    }
    return Admitted(claims != [] || workload.profile == Exclusive, claims);
  }

  // ---------- Every run of admissions and releases ----------

  datatype Step = Admit(workload: Workload, lease: nat) | Release(lease: nat)

  /** Evidence that stays fixed while leases come and go. */
  datatype Evidence = Evidence(node: Node, canaries: seq<Canary>, capacities: seq<Capacity>) {
    predicate Valid() {
      ValidCanaries(node, canaries) && AllValid(capacities)
    }

    function Capacities(): map<Slot, nat> {
      Measured(node, canaries, capacities)
    }
  }

  function Without(leases: seq<Lease>, id: nat): seq<Lease> {
    if leases == [] then []
    else
      var last := leases[|leases| - 1];
      var rest := Without(leases[..|leases| - 1], id);
      if last.id == id then rest else rest + [last]
  }

  predicate Named(leases: seq<Lease>, id: nat) {
    exists i :: 0 <= i < |leases| && leases[i].id == id
  }

  /** An accepted admission adds its lease when it needs one; a release takes one away. */
  function Next(e: Evidence, leases: seq<Lease>, step: Step): seq<Lease> {
    match step
    case Admit(workload, id) =>
      var claims := Claims(workload.operation, workload.profile);
      if Admissible(workload, e.node, e.canaries, e.capacities, leases) && !Named(leases, id)
         && (claims != [] || workload.profile == Exclusive)
      then leases + [Lease(id, e.node.id, claims, workload.profile == Exclusive)]
      else leases
    case Release(id) => Without(leases, id)
  }

  function After(e: Evidence, steps: seq<Step>): seq<Lease> {
    if steps == [] then [] else Next(e, After(e, steps[..|steps| - 1]), steps[|steps| - 1])
  }

  predicate Within(e: Evidence, leases: seq<Lease>) {
    && ValidLeases(e.node, leases)
    && (forall slot :: Usage(leases, slot) <= Get(e.Capacities(), slot))
    && (AnyExclusive(leases) ==> |leases| == 1)
  }

  /** Room for a workload is room within the measured capacity. */
  lemma RoomIsMeasured(e: Evidence, workload: Workload, leases: seq<Lease>, slot: Slot)
    requires Admissible(workload, e.node, e.canaries, e.capacities, leases)
    requires slot in Claims(workload.operation, workload.profile)
    ensures Usage(leases, slot) < Get(e.Capacities(), slot)
  {
    var claims := Claims(workload.operation, workload.profile);
    var groups := Grouped(e.node, workload, e.capacities).value;
    var contention :| contention in groups && Complete(groups[contention], claims);
    var k :| 0 <= k < |claims| && claims[k] == slot;
    assert Room(groups, claims, claims[k], Usage(leases, claims[k]));
    GroupedFromReceipt(e.node, workload, e.capacities, contention, slot);
    var i :| 0 <= i < |e.capacities| && Relevant(e.node, workload, e.capacities[i]) && e.capacities[i].slot == slot
             && e.capacities[i].maxConcurrent == groups[contention][slot];
    assert Counts(e.node, e.canaries, e.capacities[i]);
    MeasuredIsLargest(e.node, e.canaries, e.capacities, slot);
  }

  lemma UsageAppend(leases: seq<Lease>, lease: Lease, slot: Slot)
    ensures Usage(leases + [lease], slot) == Usage(leases, slot) + (if slot in lease.slots then 1 else 0)
  {
  }

  lemma {:induction false} WithoutUsage(leases: seq<Lease>, id: nat, slot: Slot)
    ensures Usage(Without(leases, id), slot) <= Usage(leases, slot)
  {
    if leases != [] {
      var last := |leases| - 1;
      WithoutUsage(leases[..last], id, slot);
      UsageAppend(Without(leases[..last], id), leases[last], slot);
    }
  }

  lemma {:induction false} WithoutKeeps(node: Node, leases: seq<Lease>, id: nat)
    requires ValidLeases(node, leases)
    ensures var r := Without(leases, id);
            ValidLeases(node, r) && |r| <= |leases| && forall i :: 0 <= i < |r| ==> r[i] in leases
  {
    if leases != [] {
      var last := |leases| - 1;
      WithoutKeeps(node, leases[..last], id);
      var rest := Without(leases[..last], id);
      assert forall i :: 0 <= i < |rest| ==> rest[i] in leases[..last];
    }
  }

  lemma AdmitKeeps(e: Evidence, leases: seq<Lease>, workload: Workload, id: nat)
    requires Within(e, leases)
    ensures Within(e, Next(e, leases, Admit(workload, id)))
  {
    var after := Next(e, leases, Admit(workload, id));
    if after != leases {
      var claims := Claims(workload.operation, workload.profile);
      var lease := Lease(id, e.node.id, claims, workload.profile == Exclusive);
      forall slot ensures Usage(after, slot) <= Get(e.Capacities(), slot) {
        UsageAppend(leases, lease, slot);
        if slot in claims {
          RoomIsMeasured(e, workload, leases, slot);
        }
      }
    }
  }

  lemma ReleaseKeeps(e: Evidence, leases: seq<Lease>, id: nat)
    requires Within(e, leases)
    ensures Within(e, Next(e, leases, Release(id)))
  {
    WithoutKeeps(e.node, leases, id);
    var r := Without(leases, id);
    forall slot ensures Usage(r, slot) <= Usage(leases, slot) {
      WithoutUsage(leases, id, slot);
    }
    if AnyExclusive(r) {
      var i :| 0 <= i < |r| && r[i].exclusive;
      assert r[i] in leases;
      var j :| 0 <= j < |leases| && leases[j] == r[i];
      assert AnyExclusive(leases);
    }
  }

  lemma {:induction false} RunsKeep(e: Evidence, steps: seq<Step>)
    ensures Within(e, After(e, steps))
  {
    if steps != [] {
      RunsKeep(e, steps[..|steps| - 1]);
      var before := After(e, steps[..|steps| - 1]);
      match steps[|steps| - 1]
      case Admit(workload, id) => AdmitKeeps(e, before, workload, id);
      case Release(id) => ReleaseKeeps(e, before, id);
    }
  }

  /** In every run a slot's occupancy is at most the measured capacity, hence at most a concurrency that
      some accepted measurement reached with every offered task settled and validated. */
  lemma OccupancyWasMeasured(e: Evidence, steps: seq<Step>, slot: Slot)
    requires e.Valid() && Usage(After(e, steps), slot) > 0
    ensures Usage(After(e, steps), slot) <= Get(e.Capacities(), slot)
    ensures exists i :: 0 <= i < |e.capacities| && e.capacities[i].accepted && e.capacities[i].slot == slot
              && var m := e.capacities[i].measurement;
                 Usage(After(e, steps), slot) <= m.simultaneous && m.offered == m.settled == m.validated
  {
    RunsKeep(e, steps);
    MeasuredIsLargest(e.node, e.canaries, e.capacities, slot);
    var i :| 0 <= i < |e.capacities| && Counts(e.node, e.canaries, e.capacities[i]) && e.capacities[i].slot == slot
             && e.capacities[i].maxConcurrent == e.Capacities()[slot];
    assert ValidCapacity(e.capacities[i]);
  }

  /** In every run an exclusive lease is the only lease. */
  lemma ExclusiveIsAlone(e: Evidence, steps: seq<Step>)
    requires AnyExclusive(After(e, steps))
    ensures |After(e, steps)| == 1
  {
    RunsKeep(e, steps);
  }
}
