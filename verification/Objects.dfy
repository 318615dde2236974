/**
 The Kubernetes objects the provider reads and writes, and the store that holds them.

 Names with a fixed spelling (annotation keys, status reasons, condition types, secret
 keys) are constructors; every other spelling is the constructor that carries the text.
 */
module Objects {

  datatype Option<+T> = None | Some(value: T)

  /** One if the fact holds, for counting. */
  function Bit(b: bool): nat {
    if b then 1 else 0
  }

  datatype Key = Key(namespace: string, name: string)

  datatype WorkloadRef = WorkloadRef(namespace: string, name: string, uid: string)

  datatype SandboxSpec = SandboxSpec(
    workloadRef: WorkloadRef,
    sandboxID: string,
    userDataSecret: string,
    className: string,
    vcpus: int,
    memoryMiB: int,
    arch: string)

  datatype ConditionKind = Ready | Progressing | OtherCondition(text: string)

  datatype ConditionStatus = True | False | Unknown

  datatype Reason =
    | ClassUnavailable
    | UserDataUnavailable
    | RunnerCreateFailed
    | WaitingForRunner
    | RunnerDeleteFailed
    | UpdatingRunner
    | RunnerFailed
    | PodVMReady
    | PodVMStarting
    | OtherReason(text: string)

  datatype ApiError = NotFound | AlreadyExists | Unexpected(text: string)

  /** Condition messages: the controller's own texts, error texts, and container messages. */
  datatype Message =
    | RunnerScheduling
    | RunnerUpdating
    | RunnerStoppedEarly
    | VmReady
    | VmStarting
    | NoUserDataKey
    | ErrorText(error: ApiError)
    | Text(text: string)

  /** `transition` is the time at which `status` last changed. */
  datatype Condition = Condition(
    kind: ConditionKind,
    status: ConditionStatus,
    observedGeneration: int,
    reason: Reason,
    message: Message,
    transition: int)

  datatype SandboxStatus = SandboxStatus(
    observedGeneration: int,
    runnerRef: Option<string>,
    nodeName: string,
    ips: seq<string>,
    conditions: seq<Condition>)

  const EMPTY_STATUS := SandboxStatus(0, None, "", [], [])

  /** `deleting` stands for a set deletion timestamp. */
  datatype Sandbox = Sandbox(uid: nat, generation: int, deleting: bool, spec: SandboxSpec, status: SandboxStatus)

  datatype MetaKey =
    | TemplateGenerationKey
    | ClassKey
    | WorkloadNameKey
    | WorkloadNamespaceKey
    | WorkloadUidKey
    | AppNameKey
    | SandboxKey
    | AccessKey
    | OtherKey(text: string)

  type Metadata = map<MetaKey, string>

  datatype SandboxClass = SandboxClass(
    generation: int,
    networkMTU: int,
    memoryOverheadMiB: int,
    annotations: Metadata,
    labels: Metadata)

  datatype DataKey = TokenData | ClassNameData | NamespaceData | UserData | OtherData(text: string)

  /** `owner` is the uid of the controlling sandbox, if any. */
  datatype Secret = Secret(labels: Metadata, data: map<DataKey, string>, owner: Option<nat>, immutable: bool)

  datatype Phase = Pending | Running | Succeeded | Failed | PhaseUnknown

  datatype PodConditionKind = PodReady | OtherPodCondition(text: string)

  datatype PodCondition = PodCondition(kind: PodConditionKind, status: ConditionStatus)

  /** `terminated` is the message of a terminated container state. */
  datatype ContainerStatus = ContainerStatus(name: string, terminated: Option<string>)

  /** What the kubelet and the scheduler report about a pod. */
  datatype PodReport = PodReport(
    phase: Phase,
    podIP: string,
    nodeName: string,
    conditions: seq<PodCondition>,
    containers: seq<ContainerStatus>)

  const NEW_REPORT := PodReport(Pending, "", "", [], [])

  /** What the controller asks for: the part of the pod it computes from sandbox and class. */
  datatype PodTemplate = PodTemplate(
    labels: Metadata,
    annotations: Metadata,
    args: seq<string>,
    cpuLimit: int,
    memoryLimitMiB: int)

  /** `terminating` marks a pod whose graceful deletion has been requested. */
  datatype Pod = Pod(owner: nat, terminating: bool, template: PodTemplate, report: PodReport)

  predicate Terminal(phase: Phase) {
    phase == Failed || phase == Succeeded
  }

  /** `nextUid` is larger than every uid handed out so far. */
  datatype Store = Store(
    sandboxes: map<Key, Sandbox>,
    pods: map<Key, Pod>,
    secrets: map<Key, Secret>,
    classes: map<string, SandboxClass>,
    nextUid: nat)

  /** The schema minima of the PodSandbox resource. */
  predicate ValidSpec(spec: SandboxSpec) {
    && spec.workloadRef.name != ""
    && spec.sandboxID != ""
    && spec.className != ""
    && spec.vcpus >= 1
    && spec.memoryMiB >= 128
  }
}
