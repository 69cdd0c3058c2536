/** Execution roles on a node: requirements, operation contracts and who may run what. */
module ExecutionRoles {
  import opened Options

  datatype Role =
    ArtifactCache | BackgroundReplay | Benchmark | LinuxAgent | LinuxCi | MacNativeBuild | MacTest | Diagnostic

  datatype Profile = Small | Medium | Large | Exclusive

  datatype Capability =
    | AppHostTest
    | AppleSilicon
    | ArtifactService
    | ReplayCapability
    | BackgroundVerificationCapability
    | BenchmarkCapability
    | BuildHelper
    | CgroupV2
    | DiagnosticCapability
    | LinuxAgentCapability
    | LinuxCiCapability
    | LinuxCiToolchain
    | NativeGlaedaBuild
    | NativeReleaseBuild
    | NativeXcodeBuild
    | SystemdExecution
    | TaskIsolation
    | WebCi

  datatype Slot =
    | ArtifactPublisherSlot
    | ArtifactServiceSlot
    | BackgroundReplaySlot
    | BenchmarkSlot
    | BrowserUiTestSlot
    | DiagnosticSlot
    | LinuxHeavySlot
    | LinuxMediumSlot
    | MacAppHostTestSlot
    | MacNativeBuildLane
    | MacNativeHeavySlot
    | MacReleaseUniversalSlot

  datatype Operation =
    | MacCompile
    | NativeDevBuild
    | MacRelease
    | MacAppHostTest
    | LinuxCiAdmission
    | WebCiAdmission
    | LinuxAgentAdmission
    | BuildHelperAdmission
    | BackgroundVerification
    | ArtifactCacheService
    | ArtifactCachePublish
    | Replay
    | BenchmarkRun
    | DiagnosticRun

  datatype Platform = Macos | Linux
  datatype Architecture = Arm64 | X86_64

  datatype NodeState =
    New | Discovered | Bootstrapping | Enrolling | CanaryState | Eligible | Active | Draining | Maintenance
    | Quarantined | Retired

  datatype Pressure = Normal | Elevated | Critical | Unknown

  /** The fleet acceptance a role currently rests on. */
  datatype Acceptance = Acceptance(profile: nat, receipt: nat)

  /** Size classes are their places in the reviewed order, from zero. */
  datatype Node = Node(
    id: nat, state: NodeState, platform: Platform, architecture: Architecture,
    enrollmentGeneration: nat, capabilityGeneration: nat, cpu: nat, memory: nat, disk: nat,
    capabilities: set<Capability>, toolchains: set<nat>, acceptances: map<Role, Acceptance>,
    cpuPressure: Pressure, memoryPressure: Pressure, swapPressure: Pressure, thermal: Pressure)

  datatype Canary = Canary(
    node: nat, role: Role, enrollmentGeneration: nat, capabilityGeneration: nat, toolchain: Option<nat>,
    capabilities: set<Capability>, profiles: set<Profile>, acceptance: Acceptance, accepted: bool)

  datatype Requirement = Requirement(
    platform: Option<Platform>, architectures: set<Architecture>, cpu: nat, memory: nat, disk: nat,
    capabilities: set<Capability>, toolchain: bool)

  datatype Workload = Workload(
    operation: Operation, role: Role, platform: Platform, architecture: Architecture, toolchain: Option<nat>,
    cpu: nat, memory: nat, capabilities: set<Capability>, profile: Profile)

  // ---------- The reviewed tables ----------

  function Requirements(role: Role): Requirement {
    match role
    case MacNativeBuild =>
      Requirement(Some(Macos), {Arm64}, 1, 1, 1, {AppleSilicon, NativeGlaedaBuild, NativeXcodeBuild}, true)
    case MacTest => Requirement(Some(Macos), {Arm64}, 1, 1, 1, {AppleSilicon, AppHostTest}, true)
    case LinuxCi =>
      Requirement(Some(Linux), {X86_64, Arm64}, 1, 1, 1,
                  {CgroupV2, LinuxCiToolchain, SystemdExecution, TaskIsolation}, true)
    case LinuxAgent =>
      Requirement(Some(Linux), {X86_64, Arm64}, 1, 1, 1, {CgroupV2, SystemdExecution, TaskIsolation}, true)
    case ArtifactCache => Requirement(None, {X86_64, Arm64}, 0, 0, 2, {ArtifactService}, false)
    case BackgroundReplay => Requirement(None, {X86_64, Arm64}, 0, 0, 0, {ReplayCapability}, false)
    case Benchmark => Requirement(None, {X86_64, Arm64}, 0, 0, 0, {BenchmarkCapability}, false)
    case Diagnostic => Requirement(None, {X86_64, Arm64}, 0, 0, 0, {DiagnosticCapability}, false)
  }

  function RoleOf(operation: Operation): Role {
    match operation
    case MacCompile => MacNativeBuild
    case NativeDevBuild => MacNativeBuild
    case MacRelease => MacNativeBuild
    case MacAppHostTest => MacTest
    case LinuxCiAdmission => LinuxCi
    case WebCiAdmission => LinuxCi
    case LinuxAgentAdmission => LinuxAgent
    case BuildHelperAdmission => LinuxAgent
    case BackgroundVerification => LinuxCi
    case ArtifactCacheService => ArtifactCache
    case ArtifactCachePublish => ArtifactCache
    case Replay => BackgroundReplay
    case BenchmarkRun => Benchmark
    case DiagnosticRun => Diagnostic
  }

  function RequiredCapability(operation: Operation): Capability {
    match operation
    case MacCompile => NativeXcodeBuild
    case NativeDevBuild => NativeGlaedaBuild
    case MacRelease => NativeReleaseBuild
    case MacAppHostTest => AppHostTest
    case LinuxCiAdmission => LinuxCiCapability
    case WebCiAdmission => WebCi
    case LinuxAgentAdmission => LinuxAgentCapability
    case BuildHelperAdmission => BuildHelper
    case BackgroundVerification => BackgroundVerificationCapability
    case ArtifactCacheService => ArtifactService
    case ArtifactCachePublish => ArtifactService
    case Replay => ReplayCapability
    case BenchmarkRun => BenchmarkCapability
    case DiagnosticRun => DiagnosticCapability
  }

  function Claims(operation: Operation, profile: Profile): (r: seq<Slot>)
    ensures Distinct(r)
  {
    var large := profile.Large? || profile.Exclusive?;
    match operation
    case MacCompile => [MacNativeBuildLane, MacNativeHeavySlot]
    case NativeDevBuild => [MacNativeBuildLane, MacNativeHeavySlot]
    case MacRelease => [ArtifactPublisherSlot, MacNativeBuildLane, MacNativeHeavySlot, MacReleaseUniversalSlot]
    case MacAppHostTest => [MacAppHostTestSlot, MacNativeHeavySlot]
    case LinuxCiAdmission => if large then [LinuxHeavySlot, LinuxMediumSlot] else [LinuxMediumSlot]
    case WebCiAdmission =>
      if large then [BrowserUiTestSlot, LinuxHeavySlot, LinuxMediumSlot] else [BrowserUiTestSlot, LinuxMediumSlot]
    case LinuxAgentAdmission => if large then [LinuxHeavySlot, LinuxMediumSlot] else [LinuxMediumSlot]
    case BuildHelperAdmission => if large then [LinuxHeavySlot, LinuxMediumSlot] else [LinuxMediumSlot]
    case BackgroundVerification => [LinuxMediumSlot]
    case ArtifactCacheService => [ArtifactServiceSlot]
    case ArtifactCachePublish => [ArtifactPublisherSlot]
    case Replay => [BackgroundReplaySlot]
    case BenchmarkRun => [BenchmarkSlot]
    case DiagnosticRun => [DiagnosticSlot]
  }

  predicate Distinct(slots: seq<Slot>) {
    forall i, j :: 0 <= i < j < |slots| ==> slots[i] != slots[j]
  }

  // ---------- Eligibility ----------

  /** Canaries are rejected as a whole when one is for another node or two are for one role. */
  predicate ValidCanaries(node: Node, canaries: seq<Canary>) {
    && (forall i :: 0 <= i < |canaries| ==> canaries[i].node == node.id)
    && (forall i, j :: 0 <= i < j < |canaries| ==> canaries[i].role != canaries[j].role)
  }

  function ByRole(canaries: seq<Canary>): map<Role, Canary> {
    if canaries == [] then map[]
    else ByRole(canaries[..|canaries| - 1])[canaries[|canaries| - 1].role := canaries[|canaries| - 1]]
  }

  predicate MeetsRequirement(node: Node, requirement: Requirement) {
    && (node.state.Eligible? || node.state.Active?)
    && (requirement.platform.Some? ==> requirement.platform.value == node.platform)
    && node.architecture in requirement.architectures
    && node.cpu >= requirement.cpu && node.memory >= requirement.memory && node.disk >= requirement.disk
    && requirement.capabilities <= node.capabilities
  }

  /** The canary speaks for the node's present acceptance, enrollment and capability generation. */
  predicate Current(node: Node, canary: Canary) {
    && canary.role in node.acceptances && canary.acceptance == node.acceptances[canary.role] && canary.accepted
    && canary.enrollmentGeneration == node.enrollmentGeneration
    && canary.capabilityGeneration == node.capabilityGeneration
    && Requirements(canary.role).capabilities <= canary.capabilities
    && (Requirements(canary.role).toolchain ==> canary.toolchain.Some? && canary.toolchain.value in node.toolchains)
  }

  predicate IsEligible(node: Node, canaries: seq<Canary>, role: Role) {
    && MeetsRequirement(node, Requirements(role))
    && role in ByRole(canaries) && ByRole(canaries)[role].role == role && Current(node, ByRole(canaries)[role])
  }

  function AcceptedProfiles(node: Node, canaries: seq<Canary>, role: Role): set<Profile> {
    if IsEligible(node, canaries, role) then ByRole(canaries)[role].profiles else {}
  }

  /** Collects the canaries by role, refusing a foreign or repeated one. */
  method CollectCanaries(node: Node, canaries: seq<Canary>) returns (found: Option<map<Role, Canary>>)
    ensures found == if ValidCanaries(node, canaries) then Some(ByRole(canaries)) else None
  {
    var byRole: map<Role, Canary> := map[];
    for i := 0 to |canaries|
      invariant byRole == ByRole(canaries[..i]) && ValidCanaries(node, canaries[..i])
      invariant forall role :: role in byRole <==> exists j :: 0 <= j < i && canaries[j].role == role
    {
      if canaries[i].node != node.id || canaries[i].role in byRole {
        return None;
      }
      assert canaries[..i + 1][..i] == canaries[..i];
      byRole := byRole[canaries[i].role := canaries[i]];
    }
    assert canaries[..|canaries|] == canaries;
    return Some(byRole);
  }

  /** A workload is rejected when it names another role than its operation's or leaves out the
      capability its operation requires. */
  predicate ValidWorkload(workload: Workload) {
    workload.role == RoleOf(workload.operation) && RequiredCapability(workload.operation) in workload.capabilities
  }

  /** The workload's own demands on an eligible node, capacity aside. */
  predicate Suits(workload: Workload, node: Node, canaries: seq<Canary>) {
    var role := RoleOf(workload.operation);
    && IsEligible(node, canaries, role)
    && workload.platform == node.platform && workload.architecture == node.architecture
    && node.cpu >= workload.cpu && node.memory >= workload.memory
    && workload.capabilities <= node.capabilities && workload.capabilities <= ByRole(canaries)[role].capabilities
    && (workload.toolchain.Some? ==> workload.toolchain.value in node.toolchains
                                     && ByRole(canaries)[role].toolchain == workload.toolchain)
  }
}
