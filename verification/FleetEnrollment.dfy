/** Fleet enrollment: the life of a node's enrollment, what makes it eligible, and class acceptances. */
module FleetEnrollment {
  import opened Options

  datatype State = Discovered | Enrolling | Eligible | Draining | Quarantined | Retired

  datatype Reason =
    DirtyCheckout | DiskPressure | FailedAcceptance | HardwareFailure | ServiceMismatch | StaleGlaeda
    | ToolchainMismatch | UnexplainedSettlement

  /** The two roles with a reviewed acceptance workload. */
  datatype Role = LinuxCi | MacNativeBuild

  datatype Family = Macos | Linux

  datatype Profile = Profile(id: string, generation: nat)

  /** What an enrollment says of its machine; `capability` is the class it was enrolled in. */
  datatype Machine = Machine(architecture: nat, family: Family, osVersion: nat, capability: nat)

  const LAST_GENERATION: nat := 0x7fff_ffff

  datatype Enrollment = Enrollment(
    node: nat, machine: Machine, toolchains: set<nat>, profiles: map<Role, Profile>, roles: seq<Role>, scope: nat,
    generation: nat, glaeda: nat, state: State, reason: Option<Reason>, classAcceptance: Option<nat>)

  datatype Execution = Local | External | ClassDerived(digest: nat)

  datatype Receipt = Receipt(
    node: nat, generation: nat, role: Role, profile: Profile, toolchain: nat, glaeda: nat, contract: nat,
    evidence: nat, execution: Execution, passed: bool, settled: bool, accepted: bool)

  function ReviewedProfile(role: Role): Profile {
    match role
    case LinuxCi => Profile("cmux.ci.guard", 1)
    case MacNativeBuild => Profile("cmux.macos.dev-check", 1)
  }

  function FamilyOf(role: Role): Family {
    match role
    case LinuxCi => Linux
    case MacNativeBuild => Macos
  }

  function Targets(state: State): set<State> {
    match state
    case Discovered => {Enrolling, Retired}
    case Enrolling => {Eligible, Quarantined, Retired}
    case Eligible => {Draining, Quarantined, Retired}
    case Draining => {Eligible, Quarantined, Retired}
    case Quarantined => {Enrolling, Retired}
    case Retired => {}
  }

  predicate ValidEnrollment(e: Enrollment) {
    && e.toolchains != {} && e.roles != [] && 1 <= e.generation <= LAST_GENERATION
    && (forall i, j :: 0 <= i < j < |e.roles| ==> e.roles[i] != e.roles[j])
    && (forall role :: role in e.profiles <==> role in e.roles)
    && (forall role :: role in e.profiles ==> e.profiles[role] == ReviewedProfile(role))
    && (forall role :: role in e.roles ==> FamilyOf(role) == e.machine.family)
    && (e.reason.Some? <==> e.state == Quarantined)
  }

  predicate ValidReceipt(r: Receipt) {
    && r.profile == ReviewedProfile(r.role) && r.generation >= 1
    && r.accepted == (r.passed && r.settled && !r.execution.External?)
  }

  // ---------- Routing status ----------

  predicate Matches(e: Enrollment, r: Receipt, role: Role, contract: nat) {
    && r.accepted && r.node == e.node && r.role == role && r.generation == e.generation && r.glaeda == e.glaeda
    && r.contract == contract && r.toolchain in e.toolchains
    && role in e.profiles && r.profile == e.profiles[role]
    && (r.execution.ClassDerived? ==> e.classAcceptance == Some(r.execution.digest))
  }

  predicate ValidReceipts(receipts: seq<Receipt>) {
    && (forall i :: 0 <= i < |receipts| ==> ValidReceipt(receipts[i]))
    && (forall i, j :: 0 <= i < j < |receipts| ==> receipts[i].role != receipts[j].role)
  }

  /** The role may be routed to under these receipts. */
  predicate RoleEligible(e: Enrollment, receipts: seq<Receipt>, role: Role, contract: nat) {
    && e.state == Eligible && role in e.roles
    && exists i :: 0 <= i < |receipts| && receipts[i].role == role && Matches(e, receipts[i], role, contract)
  }

  predicate Routable(e: Enrollment, receipts: seq<Receipt>, contract: nat) {
    exists role :: role in e.roles && RoleEligible(e, receipts, role, contract)
  }

  /** Some eligible role rests on a class acceptance rather than a build of its own. */
  predicate RestsOnClass(e: Enrollment, receipts: seq<Receipt>, contract: nat) {
    exists i :: 0 <= i < |receipts| && receipts[i].execution.ClassDerived?
                && RoleEligible(e, receipts, receipts[i].role, contract)
  }

  method NodeStatus(e: Enrollment, receipts: seq<Receipt>, contract: nat) returns (eligible: Option<set<Role>>)
    ensures eligible.Some? <==> ValidReceipts(receipts)
    ensures eligible.Some? ==> forall role :: role in eligible.value <==> RoleEligible(e, receipts, role, contract)
  {
    var byRole: map<Role, Receipt> := map[];
    for i := 0 to |receipts|
      invariant ValidReceipts(receipts[..i])
      invariant forall role :: role in byRole <==> exists j :: 0 <= j < i && receipts[j].role == role
      invariant forall j :: 0 <= j < i ==> receipts[j].role in byRole && byRole[receipts[j].role] == receipts[j]
    {
      if !ValidReceipt(receipts[i]) || receipts[i].role in byRole {
        return None;
      }
      byRole := byRole[receipts[i].role := receipts[i]];
    }
    assert receipts[..|receipts|] == receipts;
    var found: set<Role> := {};
    for i := 0 to |e.roles|
      invariant forall role :: role in found <==> role in e.roles[..i] && RoleEligible(e, receipts, role, contract)
    {
      var role := e.roles[i];
      assert e.roles[..i + 1] == e.roles[..i] + [role];
      if e.state == Eligible && role in byRole && Matches(e, byRole[role], role, contract) {
        found := found + {role};
      }
    }
    assert e.roles[..|e.roles|] == e.roles;
    return Some(found);
  }

  // ---------- Transitions ----------

  /** The class acceptances offered agree. */
  predicate OneClass(receipts: seq<Receipt>) {
    forall i, j :: 0 <= i < j < |receipts| ==>
      receipts[i].execution.ClassDerived? && receipts[j].execution.ClassDerived? ==>
        receipts[i].execution == receipts[j].execution
  }

  function FirstClass(receipts: seq<Receipt>): Option<nat> {
    if receipts == [] then None
    else if receipts[0].execution.ClassDerived? then Some(receipts[0].execution.digest)
    else FirstClass(receipts[1..])
  }

  /** The enrollment moved to its target, eligibility aside. */
  function Moved(e: Enrollment, target: State, reason: Option<Reason>): Enrollment {
    if e.state == Quarantined && target == Enrolling
    then e.(state := target, reason := reason, generation := e.generation + 1, classAcceptance := None)
    else e.(state := target, reason := reason)
  }

  predicate MayMove(e: Enrollment, target: State, reason: Option<Reason>) {
    && ValidEnrollment(e) && target in Targets(e.state) && (reason.Some? <==> target == Quarantined)
    && !(e.state == Quarantined && target == Enrolling && e.generation == LAST_GENERATION)
  }

  function Transition(e: Enrollment, target: State, reason: Option<Reason>, receipts: seq<Receipt>, contract: nat)
    : Option<Enrollment>
  {
    if !MayMove(e, target, reason) then None
    else if target != Eligible then Some(Moved(e, target, reason))
    else if !ValidReceipts(receipts) || !OneClass(receipts) then None
    else
      var named := Moved(e, target, reason).(classAcceptance := FirstClass(receipts));
      if !Routable(named, receipts, contract) then None
      else if named.classAcceptance.Some? && !RestsOnClass(named, receipts, contract)
      then Some(named.(classAcceptance := None))
      else Some(named)
  }

  method TransitionTo(enrollment: Enrollment, target: State, reason: Option<Reason>, receipts: seq<Receipt>,
                      contract: nat)
    returns (r: Option<Enrollment>)
    ensures r == Transition(enrollment, target, reason, receipts, contract)
  {
    var e := enrollment;
    var current := e.state;
    if !ValidEnrollment(e) || target !in Targets(current) {
      return None;
    }
    if target == Quarantined {
      if reason.None? {
        return None;
      }
      e := e.(reason := reason);
    } else {
      if reason.Some? {
        return None;
      }
      e := e.(reason := None);
    }
    if current == Quarantined && target == Enrolling {
      if e.generation == LAST_GENERATION {
        return None;
      }
      e := e.(generation := e.generation + 1, classAcceptance := None);
    }
    e := e.(state := target);
    if target != Eligible {
      return Some(e);
    }
    var one, offered := Offered(receipts);
    if !one {
      return None;
    }
    e := e.(classAcceptance := offered);
    var eligible := NodeStatus(e, receipts, contract);
    if eligible.None? {
      return None;
    }
    if eligible.value == {} {
      return None;
    }
    assert Routable(e, receipts, contract) by {
      var role :| role in eligible.value;
    }
    if e.classAcceptance.Some? && !(exists i :: 0 <= i < |receipts| && receipts[i].execution.ClassDerived?
                                                && receipts[i].role in eligible.value) {
      e := e.(classAcceptance := None);
    }
    return Some(e);
  }

  method Offered(receipts: seq<Receipt>) returns (one: bool, first: Option<nat>)
    ensures one == OneClass(receipts) && (one ==> first == FirstClass(receipts))
  {
    first := None;
    for i := 0 to |receipts|
      invariant OneClass(receipts[..i])
      invariant first.Some? ==> FirstClass(receipts) == first
      invariant first.None? ==> FirstClass(receipts) == FirstClass(receipts[i..])
      invariant forall j :: 0 <= j < i && receipts[j].execution.ClassDerived? ==>
                  first == Some(receipts[j].execution.digest)
      invariant first.Some? ==>
                  exists j :: 0 <= j < i && receipts[j].execution == ClassDerived(first.value)
    {
      if receipts[i].execution.ClassDerived? {
        if first.Some? && first.value != receipts[i].execution.digest {
          return false, first;
        }
        first := Some(receipts[i].execution.digest);
      }
    }
    assert receipts[..|receipts|] == receipts;
    return true, first;
  }

  /** An enrollment that became eligible is still routable under the same receipts, and names a class
      acceptance exactly when an eligible role rests on one. */
  lemma EligibleStaysEligible(e: Enrollment, receipts: seq<Receipt>, contract: nat)
    requires Transition(e, Eligible, None, receipts, contract).Some?
    ensures var t := Transition(e, Eligible, None, receipts, contract).value;
            && t.state == Eligible && ValidEnrollment(t) && Routable(t, receipts, contract)
            && (t.classAcceptance.Some? <==> RestsOnClass(t, receipts, contract))
            && (t.classAcceptance.Some? ==>
                  exists i :: 0 <= i < |receipts| && receipts[i].execution == ClassDerived(t.classAcceptance.value))
  {
  }

  /** Where no eligible role rests on the class, dropping its name leaves every role as it was. */
  lemma DroppingClassChangesNothing(named: Enrollment, receipts: seq<Receipt>, contract: nat)
    requires ValidReceipts(receipts) && Routable(named, receipts, contract) && !RestsOnClass(named, receipts, contract)
    ensures var t := named.(classAcceptance := None);
            && Routable(t, receipts, contract) && !RestsOnClass(t, receipts, contract)
            && forall role ::
                 RoleEligible(named, receipts, role, contract) <==> RoleEligible(t, receipts, role, contract)
  {
  }

  // ---------- Renewal and whole lives ----------

  datatype Bootstrap = Bootstrap(
    clear: bool, machine: Machine, hardware: nat, toolchain: nat, toolchainDetail: nat, profiles: map<Role, Profile>,
    roles: seq<Role>, glaeda: nat)

  function FromBootstrap(b: Bootstrap, node: nat, scope: nat, generation: nat): Option<Enrollment> {
    var e := Enrollment(node, b.machine, {b.toolchain}, b.profiles, b.roles, scope, generation, b.glaeda, Enrolling,
                        None, None);
    if b.clear && ValidEnrollment(e) then Some(e) else None
  }

  function Renewal(e: Enrollment, b: Bootstrap): Option<Enrollment> {
    if !ValidEnrollment(e) || e.state != Quarantined || e.generation == LAST_GENERATION then None
    else FromBootstrap(b, e.node, e.scope, e.generation + 1)
  }

  datatype Action =
    | Move(target: State, reason: Option<Reason>, receipts: seq<Receipt>, contract: nat)
    | Renew(bootstrap: Bootstrap)

  function Next(e: Enrollment, action: Action): Enrollment {
    var r :=
      match action
      case Move(target, reason, receipts, contract) => Transition(e, target, reason, receipts, contract)
      case Renew(bootstrap) => Renewal(e, bootstrap);
    if r.Some? then r.value else e
  }

  function After(e: Enrollment, actions: seq<Action>): Enrollment {
    if actions == [] then e else Next(After(e, actions[..|actions| - 1]), actions[|actions| - 1])
  }

  lemma NextAdvances(e: Enrollment, action: Action)
    ensures Next(e, action).generation >= e.generation && Next(e, action).node == e.node
    ensures e.state == Quarantined && Next(e, action).generation == e.generation ==>
              Next(e, action).state == Quarantined || Next(e, action).state == Retired
    ensures e.state == Retired ==> Next(e, action) == e
  {
  }

  /** Over every run the generation never falls. */
  lemma {:induction false} GenerationNeverFalls(e: Enrollment, actions: seq<Action>)
    ensures After(e, actions).generation >= e.generation && After(e, actions).node == e.node
  {
    if actions != [] {
      GenerationNeverFalls(e, actions[..|actions| - 1]);
      NextAdvances(After(e, actions[..|actions| - 1]), actions[|actions| - 1]);
    }
  }

  lemma {:induction false} LeavingQuarantineAdvances(e: Enrollment, actions: seq<Action>)
    requires e.state == Quarantined
    ensures var t := After(e, actions);
            t.generation > e.generation || t.state == Quarantined || t.state == Retired
  {
    if actions != [] {
      var before := actions[..|actions| - 1];
      LeavingQuarantineAdvances(e, before);
      GenerationNeverFalls(e, before);
      NextAdvances(After(e, before), actions[|actions| - 1]);
    }
  }

  /** Once quarantined, no receipt of that generation or an earlier one, in whatever list it is offered, is
      ever again the one an eligible role rests on, before a transition to eligible or after it. */
  lemma QuarantineOutlivesReceipts(e: Enrollment, actions: seq<Action>, receipts: seq<Receipt>, r: Receipt, role: Role,
                                   contract: nat)
    requires e.state == Quarantined && r.generation <= e.generation
    ensures var t := After(e, actions); t.state == Eligible ==> !Matches(t, r, role, contract)
    ensures var t := Transition(After(e, actions), Eligible, None, receipts, contract);
            t.Some? ==> !Matches(t.value, r, role, contract)
  {
    LeavingQuarantineAdvances(e, actions);
  }

  /** So a list of such receipts alone never makes the node eligible. */
  lemma OldReceiptsNeverSuffice(e: Enrollment, actions: seq<Action>, receipts: seq<Receipt>, contract: nat)
    requires e.state == Quarantined && forall i :: 0 <= i < |receipts| ==> receipts[i].generation <= e.generation
    ensures !Routable(After(e, actions), receipts, contract)
    ensures Transition(After(e, actions), Eligible, None, receipts, contract) == None
  {
    LeavingQuarantineAdvances(e, actions);
    var t := After(e, actions);
    if MayMove(t, Eligible, None) {
      assert !Routable(Moved(t, Eligible, None).(classAcceptance := FirstClass(receipts)), receipts, contract);
    }
  }

  // ---------- Class acceptances ----------

  datatype ClassReceipt = ClassReceipt(
    fleetClass: nat, role: Role, profile: Profile, architecture: nat, osVersion: nat, hardware: nat,
    toolchainDetail: nat, toolchain: nat, glaeda: nat,
    contract: nat, candidate: nat, evidence: nat, acceptingNode: nat, acceptingGeneration: nat, digest: nat)

  predicate ValidClass(k: ClassReceipt) {
    k.profile == ReviewedProfile(k.role) && k.acceptingGeneration >= 1
  }

  /** The machine is still the enrolled one, with exactly this toolchain. */
  predicate SameMachine(e: Enrollment, b: Bootstrap, toolchain: nat) {
    var observed := FromBootstrap(b, e.node, e.scope, e.generation);
    && observed.Some? && observed.value.machine == e.machine && observed.value.profiles == e.profiles
    && observed.value.roles == e.roles && observed.value.glaeda == e.glaeda && observed.value.toolchains == {toolchain}
  }

  function BuildClass(e: Enrollment, r: Receipt, b: Bootstrap, fleetClass: nat, candidate: nat, contract: nat,
                      digest: nat): Option<ClassReceipt>
  {
    if !ValidEnrollment(e) || !ValidReceipt(r) || !r.execution.Local? || !r.accepted || e.state != Eligible
       || !Matches(e, r, r.role, contract) || !SameMachine(e, b, r.toolchain)
    then None
    else Some(ClassReceipt(fleetClass, r.role, r.profile, b.machine.architecture, b.machine.osVersion, b.hardware,
                           b.toolchainDetail, r.toolchain, r.glaeda,
                           r.contract, candidate, r.evidence, r.node, r.generation, digest))
  }

  /** The node is in every compared field what the class receipt was built on. */
  predicate Covered(k: ClassReceipt, b: Bootstrap, contract: nat, candidate: nat) {
    && b.machine.architecture == k.architecture && b.machine.osVersion == k.osVersion && b.hardware == k.hardware
    && b.toolchainDetail == k.toolchainDetail && b.toolchain == k.toolchain
    && b.glaeda == k.glaeda && contract == k.contract && candidate == k.candidate
  }

  function Adopt(e: Enrollment, k: ClassReceipt, expected: nat, fleetClass: nat, b: Bootstrap, contract: nat,
                 candidate: nat): Option<Receipt>
  {
    if !ValidEnrollment(e) || e.state != Enrolling || !ValidClass(k)
       || k.digest != expected || k.fleetClass != fleetClass
       || k.role !in e.roles || k.profile != e.profiles[k.role] || b.toolchain !in e.toolchains
       || !SameMachine(e, b, b.toolchain) || !Covered(k, b, contract, candidate)
    then None
    else Some(Receipt(e.node, e.generation, k.role, k.profile, b.toolchain, e.glaeda, contract, k.evidence,
                      ClassDerived(k.digest), true, true, true))
  }

  /** An adopted class receipt alone makes the node eligible under the same contract generation, and the
      enrollment then names that class acceptance. */
  lemma AdoptedSuffices(e: Enrollment, k: ClassReceipt, expected: nat, fleetClass: nat, b: Bootstrap, contract: nat,
                        candidate: nat)
    requires Adopt(e, k, expected, fleetClass, b, contract, candidate).Some?
    ensures var r := Adopt(e, k, expected, fleetClass, b, contract, candidate).value;
            var t := Transition(e, Eligible, None, [r], contract);
            && ValidReceipt(r) && t.Some? && t.value.classAcceptance == Some(k.digest)
            && RoleEligible(t.value, [r], k.role, contract)
  {
  }

  /** What one node built, a node like it in every compared field may adopt; and a receipt a node only
      adopted cannot seed a class in turn. */
  lemma ClassReaches(e: Enrollment, r: Receipt, b: Bootstrap, fleetClass: nat, candidate: nat, contract: nat,
                     digest: nat,
                     other: Enrollment, seen: Bootstrap)
    requires BuildClass(e, r, b, fleetClass, candidate, contract, digest).Some?
    requires ValidEnrollment(other) && other.state == Enrolling && SameMachine(other, seen, seen.toolchain)
    requires r.role in other.roles && seen.toolchain in other.toolchains
    ensures var k := BuildClass(e, r, b, fleetClass, candidate, contract, digest).value;
            var adopted := Adopt(other, k, digest, fleetClass, seen, contract, candidate);
            && (adopted.Some? <==>
                  && seen.machine.architecture == b.machine.architecture
                  && seen.machine.osVersion == b.machine.osVersion
                  && seen.hardware == b.hardware && seen.toolchainDetail == b.toolchainDetail
                  && seen.toolchain == r.toolchain && seen.glaeda == r.glaeda)
            && (adopted.Some? ==> BuildClass(Transition(other, Eligible, None, [adopted.value], contract).value,
                                             adopted.value, seen, fleetClass, candidate, contract, digest) == None)
  {
  }
}
