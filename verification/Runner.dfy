/**
 The runner pod the controller wants for a sandbox of a class
 (`desiredRunner` in internal/controller/podsandbox_controller.go) and the capacity
 check of the runner that receives its arguments (cmd/runner/main.go).
 */
module Runner {
  import opened Objects
  import opened Decimal

  const DEFAULT_NETWORK_MTU := 1500
  const DEFAULT_OVERHEAD_MIB := 256
  const INT64_MAX := 0x7fff_ffff_ffff_ffff
  const TWO_64 := 0x1_0000_0000_0000_0000

  predicate FitsInt64(n: int) {
    -INT64_MAX - 1 <= n <= INT64_MAX
  }

  /** Two's complement wrap-around of an int64 result. */
  function WrapInt64(n: int): int {
    (n + INT64_MAX + 1) % TWO_64 - INT64_MAX - 1
  }

  function Overhead(sandboxClass: SandboxClass): int {
    if sandboxClass.memoryOverheadMiB == 0 then DEFAULT_OVERHEAD_MIB else sandboxClass.memoryOverheadMiB
  }

  function NetworkMTU(sandboxClass: SandboxClass): int {
    if sandboxClass.networkMTU == 0 then DEFAULT_NETWORK_MTU else sandboxClass.networkMTU
  }

  function TemplateGeneration(sandbox: Sandbox, sandboxClass: SandboxClass): string {
    Format(sandbox.generation) + "/" + Format(sandboxClass.generation)
  }

  function RunnerAnnotations(sandbox: Sandbox, sandboxClass: SandboxClass): Metadata {
    var workload := sandbox.spec.workloadRef;
    var base := sandboxClass.annotations[ClassKey := sandbox.spec.className]
                                  [TemplateGenerationKey := TemplateGeneration(sandbox, sandboxClass)]
                                  [WorkloadNameKey := workload.name];
    var named := if workload.namespace != "" then base[WorkloadNamespaceKey := workload.namespace] else base;
    if workload.uid != "" then named[WorkloadUidKey := workload.uid] else named
  }

  function RunnerLabels(name: string, sandboxClass: SandboxClass): Metadata {
    sandboxClass.labels[AppNameKey := "pod-sandbox-runner"][SandboxKey := name]
  }

  function RunnerArgs(sandbox: Sandbox, sandboxClass: SandboxClass): seq<string> {
    [ "run",
      "--cpus=" + Format(sandbox.spec.vcpus),
      "--memory-mib=" + Format(sandbox.spec.memoryMiB),
      "--network-mtu=" + Format(NetworkMTU(sandboxClass))]
  }

  function DesiredRunner(name: string, sandbox: Sandbox, sandboxClass: SandboxClass): PodTemplate {
    PodTemplate(
      RunnerLabels(name, sandboxClass),
      RunnerAnnotations(sandbox, sandboxClass),
      RunnerArgs(sandbox, sandboxClass),
      sandbox.spec.vcpus,
      WrapInt64(sandbox.spec.memoryMiB + Overhead(sandboxClass)))
  }

  /** A missing key reads as the empty string. */
  function Lookup(m: Metadata, key: MetaKey): string {
    if key in m then m[key] else ""
  }

  /** The comparison that decides whether a runner is kept. */
  predicate Current(template: PodTemplate, name: string, sandbox: Sandbox, sandboxClass: SandboxClass) {
    Lookup(template.annotations, TemplateGenerationKey)
      == Lookup(DesiredRunner(name, sandbox, sandboxClass).annotations, TemplateGenerationKey)
  }

  lemma DesiredRunnerIsCurrent(name: string, sandbox: Sandbox, sandboxClass: SandboxClass)
    ensures Current(DesiredRunner(name, sandbox, sandboxClass), name, sandbox, sandboxClass)
    ensures Lookup(RunnerAnnotations(sandbox, sandboxClass), TemplateGenerationKey) ==
      TemplateGeneration(sandbox, sandboxClass)
  {
  }

  /**
   A runner built for one pair of sandbox and class is kept under another pair exactly when
   both generations agree, whatever annotations the classes carry under the same key.
   */
  lemma CurrentIffSameGenerations(
    name: string, built: Sandbox, builtClass: SandboxClass,
    name': string, now: Sandbox, nowClass: SandboxClass)
    ensures Current(DesiredRunner(name, built, builtClass), name', now, nowClass)
            <==> built.generation == now.generation && builtClass.generation == nowClass.generation
  {
    DesiredRunnerIsCurrent(name, built, builtClass);
    DesiredRunnerIsCurrent(name', now, nowClass);
    SlashPairInjective(built.generation, builtClass.generation, now.generation, nowClass.generation);
  }

  /** Keys the controller always sets on a runner. */
  predicate ControllerKey(key: MetaKey) {
    key == ClassKey || key == TemplateGenerationKey || key == WorkloadNameKey || key == AppNameKey || key == SandboxKey
  }

  /** Keys the controller sets when the workload has the value. */
  predicate WorkloadKey(key: MetaKey) {
    key == WorkloadNamespaceKey || key == WorkloadUidKey
  }

  /**
   The runner carries the identity of its sandbox and workload, and every other entry of the
   class. Controller keys win over the class; the namespace and uid of the workload are right
   exactly when the workload has one or the class does not claim one in its place.
   */
  lemma RunnerCarriesIdentity(name: string, sandbox: Sandbox, sandboxClass: SandboxClass, key: MetaKey)
    ensures
      var template := DesiredRunner(name, sandbox, sandboxClass);
      var workload := sandbox.spec.workloadRef;
      && Lookup(template.annotations, ClassKey) == sandbox.spec.className
      && Lookup(template.annotations, WorkloadNameKey) == workload.name
      && Lookup(template.labels, SandboxKey) == name && Lookup(template.labels, AppNameKey) == "pod-sandbox-runner"
      && (Lookup(template.annotations, WorkloadNamespaceKey) == workload.namespace
          <==> workload.namespace != "" || Lookup(sandboxClass.annotations, WorkloadNamespaceKey) == "")
      && (Lookup(template.annotations, WorkloadUidKey) == workload.uid
          <==> workload.uid != "" || Lookup(sandboxClass.annotations, WorkloadUidKey) == "")
      && (!ControllerKey(key) ==> Lookup(template.labels, key) == Lookup(sandboxClass.labels, key))
      && (!ControllerKey(key) && !WorkloadKey(key) ==>
          Lookup(template.annotations, key) == Lookup(sandboxClass.annotations, key))
  {
  }

  /** A flag given as `prefix` followed by a decimal; the last one counts. */
  function FlagValue(args: seq<string>, prefix: string, default: int): Option<int> {
    if args == [] then Some(default)
    else
      var last := args[|args| - 1];
      if prefix <= last then Parse(last[|prefix|..]) else FlagValue(args[..|args| - 1], prefix, default)
  }

  /** The guard at the head of the runner's `run`, over the flags it was given. */
  predicate AcceptsCapacity(args: seq<string>) {
    var cpus := FlagValue(args, "--cpus=", 1);
    var memory := FlagValue(args, "--memory-mib=", 512);
    cpus.Some? && memory.Some? && cpus.value >= 1 && memory.value >= 128
  }

  /** Two flags with different names, told apart by their third letter. */
  lemma OtherFlag(prefix: string, arg: string)
    requires |prefix| > 2 && |arg| > 2 && prefix[2] != arg[2]
    ensures !(prefix <= arg)
  {
  }

  /** The last argument is the flag asked for. */
  lemma LastFlag(args: seq<string>, prefix: string, n: int, default: int)
    requires args != [] && args[|args| - 1] == prefix + Format(n)
    ensures FlagValue(args, prefix, default) == Some(n)
  {
    assert (prefix + Format(n))[|prefix|..] == Format(n);
    FormatRoundTrip(n);
  }

  /** The last argument is another flag. */
  lemma SkipFlag(args: seq<string>, last: string, prefix: string, default: int)
    requires |prefix| > 2 && |last| > 2 && prefix[2] != last[2]
    ensures FlagValue(args + [last], prefix, default) == FlagValue(args, prefix, default)
  {
    OtherFlag(prefix, last);
    assert (args + [last])[..|args|] == args;
  }

  /** The flags the controller writes read back as the numbers of the spec. */
  lemma FlagsReadBack(sandbox: Sandbox, sandboxClass: SandboxClass)
    ensures RunnerArgs(sandbox, sandboxClass)[0] == "run"
    ensures FlagValue(RunnerArgs(sandbox, sandboxClass), "--cpus=", 1) == Some(sandbox.spec.vcpus)
    ensures FlagValue(RunnerArgs(sandbox, sandboxClass), "--memory-mib=", 512) == Some(sandbox.spec.memoryMiB)
    ensures FlagValue(RunnerArgs(sandbox, sandboxClass), "--network-mtu=", 1400)
            == Some(if sandboxClass.networkMTU == 0 then 1500 else sandboxClass.networkMTU)
  {
    hide FlagValue, Format;
    var args := RunnerArgs(sandbox, sandboxClass);
    var cpus, memory, mtu := args[1], args[2], args[3];
    assert cpus[2] == 'c' && memory[2] == 'm' && mtu[2] == 'n';
    assert args == [args[0], cpus, memory] + [mtu] && [args[0], cpus, memory] == [args[0], cpus] + [memory];
    LastFlag(args, "--network-mtu=", NetworkMTU(sandboxClass), 1400);
    SkipFlag([args[0], cpus, memory], mtu, "--memory-mib=", 512);
    LastFlag([args[0], cpus, memory], "--memory-mib=", sandbox.spec.memoryMiB, 512);
    SkipFlag([args[0], cpus, memory], mtu, "--cpus=", 1);
    SkipFlag([args[0], cpus], memory, "--cpus=", 1);
    LastFlag([args[0], cpus], "--cpus=", sandbox.spec.vcpus, 1);
  }

  /** The runner starts exactly for the capacities the schema admits. */
  lemma CapacityAcceptedIffSchemaMinima(sandbox: Sandbox, sandboxClass: SandboxClass)
    ensures AcceptsCapacity(RunnerArgs(sandbox, sandboxClass))
            <==> sandbox.spec.vcpus >= 1 && sandbox.spec.memoryMiB >= 128
  {
    FlagsReadBack(sandbox, sandboxClass);
  }

  /**
   The pod gets the CPUs of the spec. Its memory limit is guest memory plus overhead, and so above
   guest memory, exactly when that sum does not overflow an int64.
   */
  lemma LimitAboveGuestIffNoOverflow(name: string, sandbox: Sandbox, sandboxClass: SandboxClass)
    requires 128 <= sandbox.spec.memoryMiB <= INT64_MAX
    requires 0 <= sandboxClass.memoryOverheadMiB <= INT64_MAX
    ensures
      var template := DesiredRunner(name, sandbox, sandboxClass);
      var overhead := if sandboxClass.memoryOverheadMiB == 0 then 256 else sandboxClass.memoryOverheadMiB;
      var sum := sandbox.spec.memoryMiB + overhead;
      && template.cpuLimit == sandbox.spec.vcpus
      && (template.memoryLimitMiB > sandbox.spec.memoryMiB <==> sum <= 0x7fff_ffff_ffff_ffff)
      && (template.memoryLimitMiB == sum <==> sum <= 0x7fff_ffff_ffff_ffff)
  {
    var sum := sandbox.spec.memoryMiB + Overhead(sandboxClass);
    if FitsInt64(sum) {
      assert (sum + INT64_MAX + 1) % TWO_64 == sum + INT64_MAX + 1;
    } else {
      assert (sum + INT64_MAX + 1) % TWO_64 == sum + INT64_MAX + 1 - TWO_64;
    }
  }
}
