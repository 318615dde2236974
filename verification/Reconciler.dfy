/**
 One reconciliation of a PodSandbox (internal/controller/podsandbox_controller.go) as a
 function on stores. A `Turn` fixes everything the store does not: the time, the API calls
 that fail and how, and whether a pod deletion is graceful or takes effect at once.
 */
module Reconciler {
  import opened Objects
  import opened Conditions
  import opened Runner

  datatype Call = GetSandbox | GetClass | GetSecret | CreateRunner | GetRunner | DeleteRunner | PatchStatus

  datatype Turn = Turn(now: int, faults: map<Call, ApiError>, graceful: bool)

  datatype Outcome = Settled | Requeue | Erred(message: Message)

  /** What a reconciliation of one key sees: the objects at that key, all secrets, all classes. */
  datatype View = View(
    sandbox: Option<Sandbox>,
    pod: Option<Pod>,
    secrets: map<Key, Secret>,
    classes: map<string, SandboxClass>)

  /** Same object up to its status. */
  predicate SameButStatus(a: Sandbox, b: Sandbox) {
    a.uid == b.uid && a.generation == b.generation && a.deleting == b.deleting && a.spec == b.spec
  }

  /** The views differ at most in the pod and the sandbox status. */
  predicate OnlyPodAndStatus(v: View, w: View) {
    && w.secrets == v.secrets && w.classes == v.classes
    && w.sandbox.Some? == v.sandbox.Some?
    && (v.sandbox.Some? ==> SameButStatus(v.sandbox.value, w.sandbox.value))
  }

  datatype Reconciled<T> = Reconciled(state: T, outcome: Outcome)

  function IgnoreNotFound(e: ApiError): Outcome {
    if e == NotFound then Settled else Erred(ErrorText(e))
  }

  /** What a reconciliation finds before it touches the runner. */
  datatype Inputs =
    | Skipped(outcome: Outcome)
    | Lacking(sandbox: Sandbox, reason: Reason, message: Message)
    | Complete(sandbox: Sandbox, sandboxClass: SandboxClass)

  function ReadInputs(v: View, k: Key, t: Turn): Inputs {
    if GetSandbox in t.faults then Skipped(IgnoreNotFound(t.faults[GetSandbox]))
    else if v.sandbox.None? || v.sandbox.value.deleting then Skipped(Settled)
    else
      var sandbox := v.sandbox.value;
      var secretKey := Key(k.namespace, sandbox.spec.userDataSecret);
      if GetClass in t.faults then Lacking(sandbox, ClassUnavailable, ErrorText(t.faults[GetClass]))
      else if sandbox.spec.className !in v.classes then Lacking(sandbox, ClassUnavailable, ErrorText(NotFound))
      else if GetSecret in t.faults then Lacking(sandbox, UserDataUnavailable, ErrorText(t.faults[GetSecret]))
      else if secretKey !in v.secrets then Lacking(sandbox, UserDataUnavailable, ErrorText(NotFound))
      else if UserData !in v.secrets[secretKey].data then Lacking(sandbox, UserDataUnavailable, NoUserDataKey)
      else Complete(sandbox, v.classes[sandbox.spec.className])
  }

  /**
   Merge patch of the difference between `base` and `modified`, applied to `current`
   (section 2 of RFC 7396): a field that did not change is not sent.
   */
  function MergePatch(base: SandboxStatus, modified: SandboxStatus, current: SandboxStatus): (r: SandboxStatus)
    ensures current == base ==> r == modified
    ensures base == modified ==> r == current
  {
    SandboxStatus(
      if base.observedGeneration == modified.observedGeneration then current.observedGeneration
        else modified.observedGeneration,
      if base.runnerRef == modified.runnerRef then current.runnerRef else modified.runnerRef,
      if base.nodeName == modified.nodeName then current.nodeName else modified.nodeName,
      if base.ips == modified.ips then current.ips else modified.ips,
      if base.conditions == modified.conditions then current.conditions else modified.conditions)
  }

  /** Writes a new status for the sandbox in view, then ends with `outcome` unless the write fails. */
  function WriteStatus(v: View, t: Turn, status: SandboxStatus, outcome: Outcome): (r: Reconciled<View>)
    requires v.sandbox.Some?
    ensures OnlyPodAndStatus(v, r.state) && r.state.pod == v.pod
  {
    if PatchStatus in t.faults then Reconciled(v, IgnoreNotFound(t.faults[PatchStatus]))
    else
      var sandbox := v.sandbox.value;
      var patched := sandbox.(status := MergePatch(sandbox.status, status, sandbox.status));
      Reconciled(v.(sandbox := Some(patched)), outcome)
  }

  function ReadyCondition(sandbox: Sandbox, status: ConditionStatus, reason: Reason, message: Message): Condition {
    Condition(Ready, status, sandbox.generation, reason, message, 0)
  }

  /** The status with Ready=False, as `progressing`, `fail` and `stopped` set it. */
  function NotReady(sandbox: Sandbox, t: Turn, reason: Reason, message: Message): SandboxStatus {
    sandbox.status.(
      observedGeneration := sandbox.generation,
      conditions := SetCondition(sandbox.status.conditions, ReadyCondition(sandbox, False, reason, message), t.now))
  }

  function StopMessage(pod: Pod): Message {
    var terminated := TerminationOf(pod.report.containers);
    if terminated.Some? && terminated.value != "" then Text(terminated.value) else RunnerStoppedEarly
  }

  predicate Serving(pod: Pod) {
    IsPodReady(pod.report.conditions) && pod.report.podIP != ""
  }

  function LiveCondition(sandbox: Sandbox, pod: Pod): Condition {
    if Serving(pod) then ReadyCondition(sandbox, True, PodVMReady, VmReady)
    else ReadyCondition(sandbox, False, PodVMStarting, VmStarting)
  }

  /** The status that mirrors a live runner. */
  function Mirror(sandbox: Sandbox, name: string, t: Turn, pod: Pod): SandboxStatus {
    SandboxStatus(
      sandbox.generation,
      Some(name),
      pod.report.nodeName,
      if pod.report.podIP == "" then [] else [pod.report.podIP],
      SetCondition(sandbox.status.conditions, LiveCondition(sandbox, pod), t.now))
  }

  function NewRunner(k: Key, sandbox: Sandbox, sandboxClass: SandboxClass): Pod {
    Pod(sandbox.uid, false, DesiredRunner(k.name, sandbox, sandboxClass), NEW_REPORT)
  }

  /**
   What a reconciliation does: the pod it leaves at the key, and either no status write, a
   status with Ready=False, or a status that mirrors the live runner.
   */
  datatype Verdict =
    | Leave(runner: Option<Pod>, outcome: Outcome)
    | Decline(runner: Option<Pod>, reason: Reason, message: Message, outcome: Outcome)
    | Live(pod: Pod)
  {
    function Runner(): Option<Pod> {
      if Live? then Some(pod) else runner
    }
  }

  function Refuse(runner: Option<Pod>, reason: Reason, message: Message): Verdict {
    Decline(runner, reason, message, Erred(message))
  }

  /** Creating the runner leaves an existing pod of that name alone. */
  function EnsureRunner(v: View, k: Key, t: Turn, sandbox: Sandbox, sandboxClass: SandboxClass): Option<Pod> {
    if v.pod.Some? || CreateRunner in t.faults then v.pod else Some(NewRunner(k, sandbox, sandboxClass))
  }

  function RemoveRunner(pod: Pod, t: Turn): Option<Pod> {
    if DeleteRunner in t.faults then Some(pod)
    else if t.graceful then Some(pod.(terminating := true))
    else None
  }

  /** The part of the decision after the runner has been created or found to exist. */
  function Inspect(runner: Option<Pod>, k: Key, t: Turn, sandbox: Sandbox, sandboxClass: SandboxClass): Verdict {
    if GetRunner in t.faults && t.faults[GetRunner] != NotFound then
      Leave(runner, Erred(ErrorText(t.faults[GetRunner])))
    else if GetRunner in t.faults || runner.None? then Decline(runner, WaitingForRunner, RunnerScheduling, Requeue)
    else
      var pod := runner.value;
      if !Current(pod.template, k.name, sandbox, sandboxClass) then
        if DeleteRunner in t.faults && t.faults[DeleteRunner] != NotFound then
          Refuse(runner, RunnerDeleteFailed, ErrorText(t.faults[DeleteRunner]))
        else Decline(RemoveRunner(pod, t), UpdatingRunner, RunnerUpdating, Requeue)
      else if Terminal(pod.report.phase) then Decline(runner, RunnerFailed, StopMessage(pod), Settled)
      else Live(pod)
  }

  function Decide(v: View, k: Key, t: Turn): Verdict {
    match ReadInputs(v, k, t)
    case Skipped(outcome) => Leave(v.pod, outcome)
    case Lacking(sandbox, reason, message) => Refuse(v.pod, reason, message)
    case Complete(sandbox, sandboxClass) =>
      if CreateRunner in t.faults && t.faults[CreateRunner] != AlreadyExists then
        Refuse(v.pod, RunnerCreateFailed, ErrorText(t.faults[CreateRunner]))
      else Inspect(EnsureRunner(v, k, t, sandbox, sandboxClass), k, t, sandbox, sandboxClass)
  }

  function Enact(v: View, k: Key, t: Turn, verdict: Verdict): (r: Reconciled<View>)
    requires !verdict.Leave? ==> v.sandbox.Some?
    ensures OnlyPodAndStatus(v, r.state)
  {
    match verdict
    case Leave(runner, outcome) => Reconciled(v.(pod := runner), outcome)
    case Decline(runner, reason, message, outcome) =>
      WriteStatus(v.(pod := runner), t, NotReady(v.sandbox.value, t, reason, message), outcome)
    case Live(pod) =>
      var outcome := if Serving(pod) then Settled else Requeue;
      WriteStatus(v.(pod := Some(pod)), t, Mirror(v.sandbox.value, k.name, t, pod), outcome)
  }

  function ReconcileView(v: View, k: Key, t: Turn): (r: Reconciled<View>)
    ensures OnlyPodAndStatus(v, r.state)
  {
    Enact(v, k, t, Decide(v, k, t))
  }

  function At(s: Store, k: Key): View {
    View(
      if k in s.sandboxes then Some(s.sandboxes[k]) else None,
      if k in s.pods then Some(s.pods[k]) else None,
      s.secrets,
      s.classes)
  }

  function PutIn<T>(m: map<Key, T>, k: Key, value: Option<T>): map<Key, T> {
    if value.Some? then m[k := value.value] else m - {k}
  }

  function Put(s: Store, k: Key, v: View): Store {
    s.(sandboxes := PutIn(s.sandboxes, k, v.sandbox), pods := PutIn(s.pods, k, v.pod))
  }

  function Reconcile(s: Store, k: Key, t: Turn): Reconciled<Store> {
    var r := ReconcileView(At(s, k), k, t);
    Reconciled(Put(s, k, r.state), r.outcome)
  }

  // ------------------------------------------------------------------ frame and locality

  /** A reconciliation writes the pod and the sandbox status at its own key, nothing else. */
  lemma ReconcileFrame(s: Store, k: Key, t: Turn)
    ensures
      var r := Reconcile(s, k, t).state;
      && r.secrets == s.secrets && r.classes == s.classes && r.nextUid == s.nextUid
      && r.sandboxes.Keys == s.sandboxes.Keys
      && (forall q :: q != k && q in s.sandboxes ==> r.sandboxes[q] == s.sandboxes[q])
      && (k in s.sandboxes ==> SameButStatus(s.sandboxes[k], r.sandboxes[k]))
      && (forall q :: q != k ==> (q in r.pods <==> q in s.pods))
      && (forall q :: q != k && q in s.pods ==> r.pods[q] == s.pods[q])
      && At(r, k) == ReconcileView(At(s, k), k, t).state
  {
    var v := ReconcileView(At(s, k), k, t).state;
    assert At(Put(s, k, v), k) == v;
  }

  lemma PutElsewhere(s: Store, k: Key, v: View, q: Key)
    requires k != q
    ensures At(Put(s, k, v), q) == At(s, q)
  {
  }

  lemma PutInCommutes<T>(m: map<Key, T>, k: Key, a: Option<T>, q: Key, b: Option<T>)
    requires k != q
    ensures PutIn(PutIn(m, k, a), q, b) == PutIn(PutIn(m, q, b), k, a)
  {
  }

  lemma PutsCommute(s: Store, k: Key, v: View, q: Key, w: View)
    requires k != q
    ensures Put(Put(s, k, v), q, w) == Put(Put(s, q, w), k, v)
  {
    PutInCommutes(s.sandboxes, k, v.sandbox, q, w.sandbox);
    PutInCommutes(s.pods, k, v.pod, q, w.pod);
  }

  /** Reconciliations of different keys commute on every store, under any faults. */
  lemma ReconcileCommutes(s: Store, k: Key, t: Turn, q: Key, u: Turn)
    requires k != q
    ensures Reconcile(Reconcile(s, k, t).state, q, u).state == Reconcile(Reconcile(s, q, u).state, k, t).state
    ensures Reconcile(Reconcile(s, k, t).state, q, u).outcome == Reconcile(s, q, u).outcome
  {
    var v, w := ReconcileView(At(s, k), k, t).state, ReconcileView(At(s, q), q, u).state;
    PutElsewhere(s, k, v, q);
    PutElsewhere(s, q, w, k);
    PutsCommute(s, k, v, q, w);
  }

  // ------------------------------------------------------------------ convergence

  /** No call fails and a deleted pod is gone at once. */
  predicate Faultless(t: Turn) {
    t.faults == map[] && !t.graceful
  }

  /** A reconciliation would find all inputs and a runner of another template generation. */
  predicate Stale(v: View, k: Key, t: Turn) {
    var inputs := ReadInputs(v, k, t);
    inputs.Complete? && v.pod.Some? && !Current(v.pod.value.template, k.name, inputs.sandbox, inputs.sandboxClass)
  }

  /** Enacting the same verdict again, at any time, changes nothing. */
  lemma EnactTwice(v: View, k: Key, t: Turn, u: Turn, verdict: Verdict)
    requires Faultless(t) && Faultless(u)
    requires !verdict.Leave? ==> v.sandbox.Some?
    ensures
      var once := Enact(v, k, t, verdict).state;
      Enact(once, k, u, verdict).state == once
  {
    if !verdict.Leave? {
      var sandbox := v.sandbox.value;
      var c :=
        if verdict.Live? then LiveCondition(sandbox, verdict.pod)
        else ReadyCondition(sandbox, False, verdict.reason, verdict.message);
      SetTwice(sandbox.status.conditions, c, t.now, u.now);
    }
  }

  /** The decision does not depend on the status, nor on the time. */
  lemma DecideAgain(v: View, w: View, k: Key, t: Turn, u: Turn)
    requires Faultless(t) && Faultless(u)
    requires OnlyPodAndStatus(v, w) && w.pod == Decide(v, k, t).Runner() && !Stale(v, k, t)
    ensures Decide(w, k, u) == Decide(v, k, t)
  {
    var inputs := ReadInputs(v, k, t);
    assert inputs.Skipped? ==> ReadInputs(w, k, u) == inputs;
    assert inputs.Lacking? ==> ReadInputs(w, k, u) == Lacking(w.sandbox.value, inputs.reason, inputs.message);
    if inputs.Complete? {
      assert ReadInputs(w, k, u) == Complete(w.sandbox.value, inputs.sandboxClass);
      DesiredRunnerIsCurrent(k.name, inputs.sandbox, inputs.sandboxClass);
    }
  }

  lemma ViewSettles(v: View, k: Key, t: Turn, u: Turn)
    requires Faultless(t) && Faultless(u)
    ensures
      var once := ReconcileView(v, k, t).state;
      ReconcileView(once, k, u).state == once <==> !Stale(v, k, t)
  {
    var once := ReconcileView(v, k, t).state;
    if Stale(v, k, t) {
      var again := ReadInputs(once, k, u);
      assert once.pod.None? && again.Complete?;
      DesiredRunnerIsCurrent(k.name, again.sandbox, again.sandboxClass);
    } else {
      DecideAgain(v, once, k, t, u);
      EnactTwice(v, k, t, u, Decide(v, k, t));
    }
  }

  /** Without faults, reconciling again changes nothing exactly when the runner was not stale. */
  lemma SecondReconcileIsNoOpIffNotStale(s: Store, k: Key, t: Turn, u: Turn)
    requires Faultless(t) && Faultless(u)
    ensures
      var once := Reconcile(s, k, t).state;
      Reconcile(once, k, u).state == once <==> !Stale(At(s, k), k, t)
  {
    var once := Reconcile(s, k, t).state;
    ViewSettles(At(s, k), k, t, u);
    ReconcileFrame(s, k, t);
    ReconcileFrame(once, k, u);
    if !Stale(At(s, k), k, t) {
      var twice := Reconcile(once, k, u).state;
      assert twice.sandboxes == once.sandboxes && twice.pods == once.pods;
    }
  }

  lemma NotStaleAfterReconcile(v: View, k: Key, t: Turn, u: Turn)
    requires Faultless(t) && Faultless(u)
    ensures !Stale(ReconcileView(v, k, t).state, k, u)
  {
    hide WriteStatus;
    var inputs := ReadInputs(v, k, t);
    if inputs.Complete? {
      DesiredRunnerIsCurrent(k.name, inputs.sandbox, inputs.sandboxClass);
    }
  }

  /** Without faults, two reconciliations always reach a fixed point. */
  lemma TwoReconcilesSettle(s: Store, k: Key, t: Turn, u: Turn, v: Turn)
    requires Faultless(t) && Faultless(u) && Faultless(v)
    ensures
      var twice := Reconcile(Reconcile(s, k, t).state, k, u).state;
      Reconcile(twice, k, v).state == twice
  {
    NotStaleAfterReconcile(At(s, k), k, t, u);
    ReconcileFrame(s, k, t);
    SecondReconcileIsNoOpIffNotStale(Reconcile(s, k, t).state, k, u, v);
  }

  // ------------------------------------------------------------------ what each step means

  /** A runner is created only with all inputs and as desired, and an existing one is only deleted, if stale. */
  lemma ReconcilePods(v: View, k: Key, t: Turn)
    ensures
      var w := ReconcileView(v, k, t).state;
      && (v.pod.None? && w.pod.Some? ==>
            && ReadInputs(v, k, t).Complete?
            && w.pod.value == NewRunner(k, v.sandbox.value, ReadInputs(v, k, t).sandboxClass))
      && (v.pod.Some? && w.pod.Some? ==> w.pod == v.pod || w.pod.value == v.pod.value.(terminating := true))
      && (v.pod.Some? && w.pod != v.pod ==> Stale(v, k, t))
  {
    hide WriteStatus, NotReady, Mirror, DesiredRunner;
  }

  /** Only a stale runner is ever removed or marked for removal, under any faults. */
  lemma OnlyStaleRunnersAreDeleted(v: View, k: Key, t: Turn)
    requires v.pod.Some? && ReconcileView(v, k, t).state.pod != v.pod
    ensures Stale(v, k, t)
  {
  }

  predicate IsReady(sandbox: Sandbox) {
    ConditionTrue(sandbox.status.conditions, Ready)
  }

  /** A runner that justifies reporting the sandbox ready at address `ip`. */
  predicate ServingRunner(v: View, k: Key, ip: string) {
    && v.sandbox.Some? && !v.sandbox.value.deleting
    && v.sandbox.value.spec.className in v.classes
    && v.pod.Some?
    && Current(v.pod.value.template, k.name, v.sandbox.value, v.classes[v.sandbox.value.spec.className])
    && !Terminal(v.pod.value.report.phase)
    && IsPodReady(v.pod.value.report.conditions)
    && v.pod.value.report.podIP == ip && ip != ""
  }

  /** The addresses and runner reference that go with Ready=True. */
  predicate ReportsOneAddress(sandbox: Sandbox, name: string) {
    |sandbox.status.ips| == 1 && sandbox.status.ips[0] != "" && sandbox.status.runnerRef == Some(name)
  }

  lemma ReadyAfterSet(sandbox: Sandbox, c: Condition, now: int)
    requires c.kind == Ready
    ensures ConditionTrue(SetCondition(sandbox.status.conditions, c, now), Ready) <==> c.status == True
  {
    FindAfterSet(sandbox.status.conditions, c, now, Ready);
  }

  /** Enacting a verdict reports Ready=True only when the verdict mirrors a serving runner. */
  lemma ReadyAfterEnact(v: View, k: Key, t: Turn, verdict: Verdict)
    requires v.sandbox.Some?
    ensures
      var before, after := v.sandbox.value, Enact(v, k, t, verdict).state.sandbox.value;
      after != before ==>
        && (IsReady(after) <==> verdict.Live? && Serving(verdict.pod))
        && (IsReady(after) ==> ReportsOneAddress(after, k.name) && after.status.ips == [verdict.pod.report.podIP])
    ensures verdict.Live? && PatchStatus !in t.faults ==>
      (IsReady(Enact(v, k, t, verdict).state.sandbox.value) <==> Serving(verdict.pod))
    ensures verdict.Decline? && PatchStatus !in t.faults ==> !IsReady(Enact(v, k, t, verdict).state.sandbox.value)
  {
    if !verdict.Leave? {
      var sandbox := v.sandbox.value;
      var c :=
        if verdict.Live? then LiveCondition(sandbox, verdict.pod)
        else ReadyCondition(sandbox, False, verdict.reason, verdict.message);
      ReadyAfterSet(sandbox, c, t.now);
    }
  }

  /** A serving runner that is mirrored was in the store before: a new runner serves nothing yet. */
  lemma LiveServingWasThere(v: View, k: Key, t: Turn)
    requires Decide(v, k, t).Live? && Serving(Decide(v, k, t).pod)
    ensures v.pod == Some(Decide(v, k, t).pod)
    ensures ServingRunner(v, k, v.pod.value.report.podIP)
  {
  }

  /**
   A reconciliation that writes the status sets Ready=True only from a serving runner that
   was already in the store; any other outcome leaves the sandbox alone or sets Ready=False.
   */
  lemma ReadyOnlyFromServingRunner(v: View, k: Key, t: Turn)
    requires v.sandbox.Some?
    ensures
      var before, after := v.sandbox.value, ReconcileView(v, k, t).state.sandbox.value;
      after != before && IsReady(after) ==>
        ReportsOneAddress(after, k.name) && ServingRunner(v, k, after.status.ips[0])
  {
    var verdict := Decide(v, k, t);
    ReadyAfterEnact(v, k, t, verdict);
    if verdict.Live? && Serving(verdict.pod) {
      LiveServingWasThere(v, k, t);
    }
  }

  lemma ServingIsLive(v: View, k: Key, t: Turn)
    requires Faultless(t) && ReadInputs(v, k, t).Complete?
    requires v.pod.Some? && ServingRunner(v, k, v.pod.value.report.podIP)
    ensures Decide(v, k, t) == Live(v.pod.value)
  {
  }

  /** Without faults, Ready=True is reported exactly for a serving runner with all inputs present. */
  lemma ReadyIffServing(v: View, k: Key, t: Turn)
    requires Faultless(t)
    requires v.sandbox.Some? && !v.sandbox.value.deleting
    ensures
      IsReady(ReconcileView(v, k, t).state.sandbox.value)
      <==> ReadInputs(v, k, t).Complete? && v.pod.Some? && ServingRunner(v, k, v.pod.value.report.podIP)
  {
    var verdict := Decide(v, k, t);
    ReadyAfterEnact(v, k, t, verdict);
    if verdict.Live? && Serving(verdict.pod) {
      LiveServingWasThere(v, k, t);
    } else if ReadInputs(v, k, t).Complete? && v.pod.Some? && ServingRunner(v, k, v.pod.value.report.podIP) {
      ServingIsLive(v, k, t);
    }
  }

  // ------------------------------------------------------------------ a stopped runner

  /** A runner of the current template generation that has failed or completed. */
  predicate StoppedRunner(v: View, k: Key) {
    && v.sandbox.Some? && !v.sandbox.value.deleting
    && v.sandbox.value.spec.className in v.classes
    && v.pod.Some?
    && Current(v.pod.value.template, k.name, v.sandbox.value, v.classes[v.sandbox.value.spec.className])
    && Terminal(v.pod.value.report.phase)
  }

  predicate ReportsFailure(sandbox: Sandbox) {
    var c := FindCondition(sandbox.status.conditions, Ready);
    c.Some? && c.value.status == False && c.value.reason == RunnerFailed
  }

  /** The calls a reconciliation needs to see a stopped runner. */
  predicate SeesRunner(t: Turn) {
    && (CreateRunner in t.faults ==> t.faults[CreateRunner] == AlreadyExists)
    && GetRunner !in t.faults
  }

  /**
   A reconciliation of a sandbox with a stopped runner keeps the runner and decides on
   RunnerFailed exactly when class and userdata are readable and the runner calls succeed.
   */
  lemma StoppedRunnerVerdict(v: View, k: Key, t: Turn)
    requires StoppedRunner(v, k)
    ensures ReconcileView(v, k, t).state.pod == v.pod
    ensures Decide(v, k, t) == Decline(v.pod, RunnerFailed, StopMessage(v.pod.value), Settled)
            <==> ReadInputs(v, k, t).Complete? && SeesRunner(t)
    ensures !Decide(v, k, t).Live?
  {
  }

  /** Under any faults, a stopped runner never turns into a ready sandbox. */
  lemma StoppedRunnerNeverReady(v: View, k: Key, t: Turn)
    requires StoppedRunner(v, k)
    ensures StoppedRunner(ReconcileView(v, k, t).state, k)
    ensures
      var after := ReconcileView(v, k, t).state.sandbox.value;
      after == v.sandbox.value || !IsReady(after)
  {
    StoppedRunnerVerdict(v, k, t);
    ReadyAfterEnact(v, k, t, Decide(v, k, t));
  }

  lemma DeclineReports(v: View, k: Key, t: Turn, verdict: Verdict)
    requires v.sandbox.Some? && verdict.Decline? && PatchStatus !in t.faults
    ensures ReportsFailure(Enact(v, k, t, verdict).state.sandbox.value) <==> verdict.reason == RunnerFailed
  {
    var sandbox := v.sandbox.value;
    FindAfterSet(sandbox.status.conditions, ReadyCondition(sandbox, False, verdict.reason, verdict.message), t.now,
        Ready);
  }

  lemma RunnerFailedVerdict(v: View, k: Key, t: Turn)
    requires Decide(v, k, t).Decline? && Decide(v, k, t).reason == RunnerFailed
    ensures StoppedRunner(v, k)
  {
    hide DesiredRunner;
  }

  /** RunnerFailed is newly reported only for a stopped runner of the current generation, under any faults. */
  lemma FailureOnlyFromStoppedRunner(v: View, k: Key, t: Turn)
    requires v.sandbox.Some?
    ensures
      var before, after := v.sandbox.value, ReconcileView(v, k, t).state.sandbox.value;
      after != before && ReportsFailure(after) ==> StoppedRunner(v, k)
  {
    hide Decide, StoppedRunner;
    var verdict := Decide(v, k, t);
    if PatchStatus !in t.faults && verdict.Decline? {
      DeclineReports(v, k, t, verdict);
      if verdict.reason == RunnerFailed {
        RunnerFailedVerdict(v, k, t);
      }
    } else if PatchStatus !in t.faults && verdict.Live? {
      var sandbox := v.sandbox.value;
      FindAfterSet(sandbox.status.conditions, LiveCondition(sandbox, verdict.pod), t.now, Ready);
    }
  }

  /** The reconciliation ends without a status write. */
  predicate WritesNothing(v: View, k: Key, t: Turn) {
    var inputs := ReadInputs(v, k, t);
    || PatchStatus in t.faults
    || inputs.Skipped?
    || (&& inputs.Complete?
        && (CreateRunner in t.faults ==> t.faults[CreateRunner] == AlreadyExists)
        && GetRunner in t.faults && t.faults[GetRunner] != NotFound)
  }

  /**
   Under any faults, while the runner stays stopped: a reconciliation without a status write leaves
   the report as it is, any other one reports RunnerFailed exactly when class, userdata and runner
   can be read.
   */
  lemma FailureReportedIff(v: View, k: Key, t: Turn)
    requires StoppedRunner(v, k)
    ensures
      ReportsFailure(ReconcileView(v, k, t).state.sandbox.value)
      <==> if WritesNothing(v, k, t) then ReportsFailure(v.sandbox.value)
        else ReadInputs(v, k, t).Complete? && SeesRunner(t)
  {
    StoppedRunnerVerdict(v, k, t);
    var verdict := Decide(v, k, t);
    if PatchStatus !in t.faults && verdict.Decline? {
      DeclineReports(v, k, t, verdict);
    }
  }

  /**
   A reported failure is not permanent by itself: while the runner stays stopped, the next
   faultless reconciliation repeats it exactly when the userdata is still readable.
   */
  lemma FailureRepeatedIffInputsComplete(v: View, k: Key, t: Turn)
    requires StoppedRunner(v, k) && Faultless(t)
    ensures ReportsFailure(ReconcileView(v, k, t).state.sandbox.value) <==> ReadInputs(v, k, t).Complete?
  {
    StoppedRunnerVerdict(v, k, t);
    DeclineReports(v, k, t, Decide(v, k, t));
  }
}
