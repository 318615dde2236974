/**
 Exactly what one reconciliation returns and reports, over the fields of the stored objects
 (internal/controller/podsandbox_controller.go).
 */
module Outcomes {
  import opened Objects
  import opened Decimal
  import opened Conditions
  import opened Runner
  import opened Reconciler

  // ------------------------------------------------------------------ what the store says

  /** The sandbox is there and not being deleted. */
  predicate Wanted(v: View) {
    v.sandbox.Some? && !v.sandbox.value.deleting
  }

  predicate HasClass(v: View)
    requires v.sandbox.Some?
  {
    v.sandbox.value.spec.className in v.classes
  }

  function UserDataOf(v: View, k: Key): Option<Secret>
    requires v.sandbox.Some?
  {
    var q := Key(k.namespace, v.sandbox.value.spec.userDataSecret);
    if q in v.secrets then Some(v.secrets[q]) else None
  }

  predicate HasInputs(v: View, k: Key)
    requires v.sandbox.Some?
  {
    HasClass(v) && UserDataOf(v, k).Some? && UserData in UserDataOf(v, k).value.data
  }

  /** The pod carries the generations of sandbox and class in its annotation. */
  predicate OfThisGeneration(v: View, pod: Pod)
    requires v.sandbox.Some? && HasClass(v)
  {
    var sandbox := v.sandbox.value;
    && TemplateGenerationKey in pod.template.annotations
    && pod.template.annotations[TemplateGenerationKey]
       == Format(sandbox.generation) + "/" + Format(v.classes[sandbox.spec.className].generation)
  }

  predicate HasStopped(pod: Pod) {
    pod.report.phase == Failed || pod.report.phase == Succeeded
  }

  /** The first Ready condition of the pod is True, and it has an address. */
  predicate ReadyAt(pod: Pod, i: nat) {
    && i < |pod.report.conditions| && pod.report.conditions[i] == PodCondition(PodReady, True)
    && forall j :: 0 <= j < i ==> pod.report.conditions[j].kind != PodReady
  }

  predicate Serves(pod: Pod) {
    pod.report.podIP != "" && exists i :: 0 <= i < |pod.report.conditions| && ReadyAt(pod, i)
  }

  /** What the runner's container said when it ended: position `i` holds the first one named `runner`. */
  predicate LastWords(pod: Pod, i: nat, text: string) {
    && i < |pod.report.containers| && pod.report.containers[i] == ContainerStatus("runner", Some(text))
    && forall j :: 0 <= j < i ==> pod.report.containers[j].name != "runner"
  }

  // ------------------------------------------------------------------ the searches

  lemma {:induction false} PodReadyIff(conditions: seq<PodCondition>)
    ensures IsPodReady(conditions) <==>
      exists i :: 0 <= i < |conditions| && conditions[i] == PodCondition(PodReady, True)
                  && forall j :: 0 <= j < i ==> conditions[j].kind != PodReady
  {
    if conditions != [] && conditions[0].kind != PodReady {
      PodReadyIff(conditions[1..]);
      if i :| 0 <= i < |conditions[1..]| && conditions[1..][i] == PodCondition(PodReady, True)
              && forall j :: 0 <= j < i ==> conditions[1..][j].kind != PodReady {
        assert conditions[i + 1] == PodCondition(PodReady, True);
        assert forall j :: 1 <= j < i + 1 ==> conditions[j] == conditions[1..][j - 1];
      }
      if i :| 0 <= i < |conditions| && conditions[i] == PodCondition(PodReady, True)
              && forall j :: 0 <= j < i ==> conditions[j].kind != PodReady {
        assert conditions[1..][i - 1] == PodCondition(PodReady, True);
        assert forall j :: 0 <= j < i - 1 ==> conditions[1..][j] == conditions[j + 1];
      }
    }
  }

  lemma {:induction false} TerminationIff(containers: seq<ContainerStatus>, text: string)
    ensures TerminationOf(containers) == Some(text) <==>
      exists i :: 0 <= i < |containers| && containers[i] == ContainerStatus("runner", Some(text))
                  && forall j :: 0 <= j < i ==> containers[j].name != "runner"
  {
    if containers != [] && containers[0].name != "runner" {
      TerminationIff(containers[1..], text);
      if i :| 0 <= i < |containers[1..]| && containers[1..][i] == ContainerStatus("runner", Some(text))
              && forall j :: 0 <= j < i ==> containers[1..][j].name != "runner" {
        assert containers[i + 1] == ContainerStatus("runner", Some(text));
        assert forall j :: 1 <= j < i + 1 ==> containers[j] == containers[1..][j - 1];
      }
      if i :| 0 <= i < |containers| && containers[i] == ContainerStatus("runner", Some(text))
              && forall j :: 0 <= j < i ==> containers[j].name != "runner" {
        assert containers[1..][i - 1] == ContainerStatus("runner", Some(text));
        assert forall j :: 0 <= j < i - 1 ==> containers[1..][j] == containers[j + 1];
      }
    }
  }

  lemma ServesIff(pod: Pod)
    ensures Serving(pod) <==> Serves(pod)
  {
    PodReadyIff(pod.report.conditions);
    if i :| 0 <= i < |pod.report.conditions| && pod.report.conditions[i] == PodCondition(PodReady, True)
            && forall j :: 0 <= j < i ==> pod.report.conditions[j].kind != PodReady {
      assert ReadyAt(pod, i);
    }
    if i :| 0 <= i < |pod.report.conditions| && ReadyAt(pod, i) {
      assert pod.report.conditions[i] == PodCondition(PodReady, True);
    }
  }

  /** A stopped runner is reported with its last words, or with a fixed message if there are none. */
  lemma StopMessageIs(pod: Pod, i: nat, text: string)
    ensures LastWords(pod, i, text) && text != "" ==> StopMessage(pod) == Text(text)
    ensures StopMessage(pod) == RunnerStoppedEarly
            || (StopMessage(pod).Text? && StopMessage(pod).text != ""
                && exists j :: 0 <= j < |pod.report.containers| && LastWords(pod, j, StopMessage(pod).text))
  {
    TerminationIff(pod.report.containers, text);
    if LastWords(pod, i, text) {
      assert pod.report.containers[i] == ContainerStatus("runner", Some(text));
    }
    if StopMessage(pod) != RunnerStoppedEarly {
      var said := TerminationOf(pod.report.containers).value;
      TerminationIff(pod.report.containers, said);
      var j :| 0 <= j < |pod.report.containers| && pod.report.containers[j] == ContainerStatus("runner", Some(said))
               && forall m :: 0 <= m < j ==> pod.report.containers[m].name != "runner";
      assert LastWords(pod, j, said);
    }
  }

  lemma CurrentIff(v: View, k: Key, pod: Pod)
    requires v.sandbox.Some? && HasClass(v)
    ensures
      var sandbox := v.sandbox.value;
      Current(pod.template, k.name, sandbox, v.classes[sandbox.spec.className]) <==> OfThisGeneration(v, pod)
  {
    var sandbox := v.sandbox.value;
    DesiredRunnerIsCurrent(k.name, sandbox, v.classes[sandbox.spec.className]);
  }

  // ------------------------------------------------------------------ outcome

  /** The state that a fault-free reconciliation looks at is settled. */
  predicate Quiescent(v: View, k: Key) {
    Wanted(v) ==>
      && HasInputs(v, k) && v.pod.Some? && OfThisGeneration(v, v.pod.value)
      && (HasStopped(v.pod.value) || Serves(v.pod.value))
  }

  lemma NewRunnerIsCurrent(v: View, k: Key)
    requires v.sandbox.Some? && HasClass(v)
    ensures
      var pod := NewRunner(k, v.sandbox.value, v.classes[v.sandbox.value.spec.className]);
      OfThisGeneration(v, pod) && !HasStopped(pod) && !Serves(pod)
  {
    DesiredRunnerIsCurrent(k.name, v.sandbox.value, v.classes[v.sandbox.value.spec.className]);
  }

  /**
   Without faults a reconciliation is done exactly when there is nothing to do, or the current
   runner has stopped or serves; it fails exactly when class or userdata is missing; otherwise it
   asks to be called again.
   */
  lemma FaultlessOutcome(v: View, k: Key, t: Turn)
    requires Faultless(t)
    ensures
      var outcome := ReconcileView(v, k, t).outcome;
      && (outcome.Settled? <==> Quiescent(v, k))
      && (outcome.Erred? <==> Wanted(v) && !HasInputs(v, k))
  {
    hide DesiredRunner, IsPodReady, SetCondition;
    if Wanted(v) && HasInputs(v, k) {
      NewRunnerIsCurrent(v, k);
      var pod := NewRunner(k, v.sandbox.value, v.classes[v.sandbox.value.spec.className]);
      CurrentIff(v, k, pod);
      ServesIff(pod);
      if v.pod.Some? {
        CurrentIff(v, k, v.pod.value);
        ServesIff(v.pod.value);
      }
    }
  }

  // ------------------------------------------------------------------ report

  /** The Ready condition of a status, up to its transition time. */
  predicate Reports(status: SandboxStatus, value: ConditionStatus, generation: int, reason: Reason, message: Message) {
    var c := FindCondition(status.conditions, Ready);
    c.Some? && c.value == Condition(Ready, value, generation, reason, message, c.value.transition)
  }

  /** The report with Ready=False that leaves runner, node and addresses as they were. */
  predicate Declines(before: Sandbox, after: Sandbox, reason: Reason, message: Message) {
    && Reports(after.status, False, before.generation, reason, message)
    && after.status.observedGeneration == before.generation
    && after.status.runnerRef == before.status.runnerRef && after.status.nodeName == before.status.nodeName
    && after.status.ips == before.status.ips
  }

  /** The report that mirrors a live runner. */
  predicate Mirrors(before: Sandbox, after: Sandbox, name: string, pod: Pod) {
    && (Serves(pod) ==> Reports(after.status, True, before.generation, PodVMReady, VmReady))
    && (!Serves(pod) ==> Reports(after.status, False, before.generation, PodVMStarting, VmStarting))
    && after.status.observedGeneration == before.generation
    && after.status.runnerRef == Some(name) && after.status.nodeName == pod.report.nodeName
    && (pod.report.podIP == "" ==> after.status.ips == [])
    && (pod.report.podIP != "" ==> after.status.ips == [pod.report.podIP])
  }

  /** What enacting a verdict leaves in the store, if the status can be written. */
  lemma EnactEffect(v: View, k: Key, t: Turn, verdict: Verdict)
    requires v.sandbox.Some? && PatchStatus !in t.faults
    ensures
      var r := Enact(v, k, t, verdict);
      match verdict
      case Leave(runner, outcome) => r == Reconciled(v.(pod := runner), outcome)
      case Decline(runner, reason, message, outcome) =>
        && Declines(v.sandbox.value, r.state.sandbox.value, reason, message)
        && r.state.pod == runner && r.outcome == outcome
      case Live(pod) =>
        && Mirrors(v.sandbox.value, r.state.sandbox.value, k.name, pod)
        && r.state.pod == Some(pod) && r.outcome == if Serves(pod) then Settled else Requeue
  {
    if !verdict.Leave? {
      var sandbox := v.sandbox.value;
      var c :=
        if verdict.Live? then LiveCondition(sandbox, verdict.pod)
        else ReadyCondition(sandbox, False, verdict.reason, verdict.message);
      FindAfterSet(sandbox.status.conditions, c, t.now, Ready);
      if verdict.Live? {
        ServesIff(verdict.pod);
      }
    }
  }

  /** Without faults, the report of a live sandbox is this one, whichever of the cases holds. */
  lemma FaultlessReport(v: View, k: Key, t: Turn)
    requires Faultless(t) && Wanted(v)
    ensures
      var before, r := v.sandbox.value, ReconcileView(v, k, t);
      var after := r.state.sandbox.value;
      if !HasClass(v) then Declines(before, after, ClassUnavailable, ErrorText(NotFound)) && r.state.pod == v.pod
      else if UserDataOf(v, k).None? then
        Declines(before, after, UserDataUnavailable, ErrorText(NotFound)) && r.state.pod == v.pod
      else if UserData !in UserDataOf(v, k).value.data then
        Declines(before, after, UserDataUnavailable, NoUserDataKey) && r.state.pod == v.pod
      else if v.pod.None? then
        && r.state.pod.Some? && r.state.pod.value.owner == before.uid && OfThisGeneration(v, r.state.pod.value)
        && Mirrors(before, after, k.name, r.state.pod.value)
      else if !OfThisGeneration(v, v.pod.value) then
        Declines(before, after, UpdatingRunner, RunnerUpdating) && r.state.pod == None
      else if HasStopped(v.pod.value) then
        Declines(before, after, RunnerFailed, StopMessage(v.pod.value)) && r.state.pod == v.pod
      else Mirrors(before, after, k.name, v.pod.value) && r.state.pod == v.pod
  {
    hide DesiredRunner, Enact, Mirrors, Declines;
    EnactEffect(v, k, t, Decide(v, k, t));
    if HasClass(v) {
      NewRunnerIsCurrent(v, k);
      CurrentIff(v, k, NewRunner(k, v.sandbox.value, v.classes[v.sandbox.value.spec.className]));
      if v.pod.Some? {
        CurrentIff(v, k, v.pod.value);
      }
    }
  }

  // ------------------------------------------------------------------ failing calls

  /** Nothing that comes before the given call fails. */
  predicate ReachesRunner(v: View, k: Key, t: Turn) {
    && Wanted(v) && HasInputs(v, k)
    && GetSandbox !in t.faults && GetClass !in t.faults && GetSecret !in t.faults
  }

  /** A sandbox that cannot be read, or whose status cannot be written, is left as it is. */
  lemma UnreadableOrUnwritable(v: View, k: Key, t: Turn)
    ensures GetSandbox in t.faults ==>
      ReconcileView(v, k, t) == Reconciled(
        v, if t.faults[GetSandbox] == NotFound then Settled else Erred(ErrorText(t.faults[GetSandbox])))
    ensures PatchStatus in t.faults && !Decide(v, k, t).Leave? ==>
      && ReconcileView(v, k, t).state.sandbox == v.sandbox
      && ReconcileView(v, k, t).outcome
         == if t.faults[PatchStatus] == NotFound then Settled else Erred(ErrorText(t.faults[PatchStatus]))
  {
    hide DesiredRunner, SetCondition;
  }

  /** A failing read of class or secret is reported with its error. */
  lemma FailingInputs(v: View, k: Key, t: Turn)
    requires Wanted(v) && GetSandbox !in t.faults && PatchStatus !in t.faults
    ensures
      var before, r := v.sandbox.value, ReconcileView(v, k, t);
      var after := r.state.sandbox.value;
      && (GetClass in t.faults ==>
            var message := ErrorText(t.faults[GetClass]);
            Declines(before, after, ClassUnavailable, message) && r.outcome == Erred(message) && r.state.pod == v.pod)
      && (GetClass !in t.faults && HasClass(v) && GetSecret in t.faults ==>
            var message := ErrorText(t.faults[GetSecret]);
            && Declines(before, after, UserDataUnavailable, message)
            && r.outcome == Erred(message) && r.state.pod == v.pod)
  {
    hide Enact, Declines;
    EnactEffect(v, k, t, Decide(v, k, t));
  }

  /** A runner that cannot be created, found or deleted is reported as such, and left as it is. */
  lemma FailingRunnerCalls(v: View, k: Key, t: Turn)
    requires ReachesRunner(v, k, t) && PatchStatus !in t.faults
    ensures
      var before, r := v.sandbox.value, ReconcileView(v, k, t);
      var after := r.state.sandbox.value;
      var blocked := CreateRunner in t.faults && t.faults[CreateRunner] != AlreadyExists;
      var stale := v.pod.Some? && !OfThisGeneration(v, v.pod.value);
      && (blocked ==>
            var message := ErrorText(t.faults[CreateRunner]);
            Declines(before, after, RunnerCreateFailed, message) && r.outcome == Erred(message) && r.state.pod == v.pod)
      && (!blocked && CreateRunner in t.faults && GetRunner !in t.faults && v.pod.None? ==>
            && Declines(before, after, WaitingForRunner, RunnerScheduling)
            && r.outcome == Requeue && r.state.pod == None)
      && (!blocked && GetRunner in t.faults && t.faults[GetRunner] == NotFound ==>
            Declines(before, after, WaitingForRunner, RunnerScheduling) && r.outcome == Requeue)
      && (!blocked && GetRunner in t.faults && t.faults[GetRunner] != NotFound ==>
            after == before && r.outcome == Erred(ErrorText(t.faults[GetRunner])))
      && (!blocked && GetRunner !in t.faults && stale && DeleteRunner in t.faults ==>
            var error := t.faults[DeleteRunner];
            && r.state.pod == v.pod
            && (error == NotFound ==> Declines(before, after, UpdatingRunner, RunnerUpdating) && r.outcome == Requeue)
            && (error != NotFound ==>
                  && Declines(before, after, RunnerDeleteFailed, ErrorText(error))
                  && r.outcome == Erred(ErrorText(error))))
      && (!blocked && GetRunner !in t.faults && stale && DeleteRunner !in t.faults && t.graceful ==>
            && r.state.pod == Some(v.pod.value.(terminating := true)) && r.outcome == Requeue
            && Declines(before, after, UpdatingRunner, RunnerUpdating))
  {
    hide DesiredRunner, Enact, Declines;
    EnactEffect(v, k, t, Decide(v, k, t));
    if v.pod.Some? {
      CurrentIff(v, k, v.pod.value);
    }
  }

  /** A status write touches no other condition. */
  lemma OtherConditionsStay(v: View, k: Key, t: Turn, kind: ConditionKind)
    requires v.sandbox.Some? && kind != Ready
    ensures
      FindCondition(ReconcileView(v, k, t).state.sandbox.value.status.conditions, kind)
      == FindCondition(v.sandbox.value.status.conditions, kind)
  {
    hide Decide;
    var verdict, sandbox := Decide(v, k, t), v.sandbox.value;
    if !verdict.Leave? {
      var c :=
        if verdict.Live? then LiveCondition(sandbox, verdict.pod)
        else ReadyCondition(sandbox, False, verdict.reason, verdict.message);
      FindAfterSet(sandbox.status.conditions, c, t.now, kind);
    }
  }
}
