/**
 The controller's `Reconcile` as it runs: it reads objects one by one, changes its copy of
 the sandbox status in place and writes pods and statuses through the API. Each method is
 proved equal to its function in module Reconciler.
 */
module Controller {
  import opened Objects
  import opened Conditions
  import opened Runner
  import R = Reconciler

  class ApiServer {
    var sandboxes: map<Key, Sandbox>
    var pods: map<Key, Pod>
    var secrets: map<Key, Secret>
    var classes: map<string, SandboxClass>
    var nextUid: nat

    function State(): Store
      reads this
    {
      Store(sandboxes, pods, secrets, classes, nextUid)
    }

    /** The status patch that ends `progressing`, `fail`, `stopped` and `Reconcile`. */
    method PatchStatus(k: Key, t: R.Turn, base: Sandbox, modified: SandboxStatus, outcome: R.Outcome)
      returns (result: R.Outcome)
      requires k in sandboxes && sandboxes[k] == base
      modifies this`sandboxes
      ensures
        var r := R.WriteStatus(R.At(old(State()), k), t, modified, outcome);
        State() == R.Put(old(State()), k, r.state) && result == r.outcome
    {
      ghost var before := State();
      if R.PatchStatus in t.faults {
        assert R.Put(before, k, R.At(before, k)) == before;
        return R.IgnoreNotFound(t.faults[R.PatchStatus]);
      }
      var current := sandboxes[k];
      sandboxes := sandboxes[k := current.(status := R.MergePatch(base.status, modified, current.status))];
      assert R.PutIn(before.pods, k, R.At(before, k).pod) == before.pods;
      return outcome;
    }

    /** The common body of `progressing`, `fail` and `stopped`. */
    method Decline(k: Key, t: R.Turn, sandbox: Sandbox, reason: Reason, message: Message, outcome: R.Outcome)
      returns (result: R.Outcome)
      requires k in sandboxes && sandboxes[k] == sandbox
      modifies this`sandboxes
      ensures
        var v := R.At(old(State()), k);
        var r := R.Enact(v, k, t, R.Decline(v.pod, reason, message, outcome));
        State() == R.Put(old(State()), k, r.state) && result == r.outcome
    {
      var status := sandbox.status.(observedGeneration := sandbox.generation);
      var condition := R.ReadyCondition(sandbox, False, reason, message);
      status := status.(conditions := SetCondition(status.conditions, condition, t.now));
      result := PatchStatus(k, t, sandbox, status, outcome);
    }

    /** The part of `Reconcile` that reads the sandbox, its class and its userdata secret. */
    method ReadInputs(k: Key, t: R.Turn) returns (inputs: R.Inputs)
      ensures inputs == R.ReadInputs(R.At(State(), k), k, t)
    {
      if R.GetSandbox in t.faults {
        return R.Skipped(R.IgnoreNotFound(t.faults[R.GetSandbox]));
      }
      if k !in sandboxes || sandboxes[k].deleting {
        return R.Skipped(R.Settled);
      }
      var sandbox := sandboxes[k];
      if R.GetClass in t.faults {
        return R.Lacking(sandbox, ClassUnavailable, ErrorText(t.faults[R.GetClass]));
      }
      if sandbox.spec.className !in classes {
        return R.Lacking(sandbox, ClassUnavailable, ErrorText(NotFound));
      }
      var secretKey := Key(k.namespace, sandbox.spec.userDataSecret);
      if R.GetSecret in t.faults {
        return R.Lacking(sandbox, UserDataUnavailable, ErrorText(t.faults[R.GetSecret]));
      }
      if secretKey !in secrets {
        return R.Lacking(sandbox, UserDataUnavailable, ErrorText(NotFound));
      }
      if UserData !in secrets[secretKey].data {
        return R.Lacking(sandbox, UserDataUnavailable, NoUserDataKey);
      }
      return R.Complete(sandbox, classes[sandbox.spec.className]);
    }

    /** The part of `Reconcile` after the runner exists or could not be found. */
    method Inspect(k: Key, t: R.Turn, sandbox: Sandbox, sandboxClass: SandboxClass) returns (result: R.Outcome)
      requires k in sandboxes && sandboxes[k] == sandbox
      modifies this`sandboxes, this`pods
      ensures
        var v := R.At(old(State()), k);
        var r := R.Enact(v, k, t, R.Inspect(v.pod, k, t, sandbox, sandboxClass));
        State() == R.Put(old(State()), k, r.state) && result == r.outcome
    {
      hide Current, SetCondition;
      ghost var before := State();
      ghost var v := R.At(before, k);
      if R.GetRunner in t.faults && t.faults[R.GetRunner] != NotFound {
        assert R.Put(before, k, v) == before;
        return R.Erred(ErrorText(t.faults[R.GetRunner]));
      }
      if R.GetRunner in t.faults || k !in pods {
        result := Decline(k, t, sandbox, WaitingForRunner, RunnerScheduling, R.Requeue);
        return;
      }
      var pod := pods[k];
      if !Current(pod.template, k.name, sandbox, sandboxClass) {
        if R.DeleteRunner in t.faults {
          if t.faults[R.DeleteRunner] != NotFound {
            var message := ErrorText(t.faults[R.DeleteRunner]);
            result := Decline(k, t, sandbox, RunnerDeleteFailed, message, R.Erred(message));
            return;
          }
        } else if t.graceful {
          pods := pods[k := pod.(terminating := true)];
        } else {
          pods := pods - {k};
        }
        ghost var removed := v.(pod := R.RemoveRunner(pod, t));
        assert pods == R.PutIn(before.pods, k, removed.pod);
        assert R.At(State(), k) == removed;
        result := Decline(k, t, sandbox, UpdatingRunner, RunnerUpdating, R.Requeue);
        assert pods == R.PutIn(before.pods, k, removed.pod);
        return;
      }
      if Terminal(pod.report.phase) {
        var terminated := RunnerTermination(pod.report.containers);
        var message := RunnerStoppedEarly;
        if terminated.Some? && terminated.value != "" {
          message := Text(terminated.value);
        }
        result := Decline(k, t, sandbox, RunnerFailed, message, R.Settled);
        return;
      }
      var podReady := PodIsReady(pod.report.conditions);
      var ready := podReady && pod.report.podIP != "";
      var status := sandbox.status.(
        observedGeneration := sandbox.generation,
        runnerRef := Some(k.name),
        nodeName := pod.report.nodeName);
      if pod.report.podIP == "" {
        status := status.(ips := []);
      } else {
        status := status.(ips := [pod.report.podIP]);
      }
      var condition := R.ReadyCondition(sandbox,
        if ready then True else False,
        if ready then PodVMReady else PodVMStarting,
        if ready then VmReady else VmStarting);
      status := status.(conditions := SetCondition(status.conditions, condition, t.now));
      assert status == R.Mirror(sandbox, k.name, t, pod);
      assert v.(pod := Some(pod)) == v;
      result := PatchStatus(k, t, sandbox, status, if ready then R.Settled else R.Requeue);
    }

    method Reconcile(k: Key, t: R.Turn) returns (result: R.Outcome)
      modifies this`sandboxes, this`pods
      ensures R.Reconciled(State(), result) == R.Reconcile(old(State()), k, t)
    {
      ghost var before := State();
      ghost var v := R.At(before, k);
      var inputs := ReadInputs(k, t);
      match inputs {
        case Skipped(outcome) =>
          assert R.Put(before, k, v) == before;
          return outcome;
        case Lacking(sandbox, reason, message) =>
          result := Decline(k, t, sandbox, reason, message, R.Erred(message));
        case Complete(sandbox, sandboxClass) =>
          var desired := R.NewRunner(k, sandbox, sandboxClass);
          if R.CreateRunner in t.faults {
            if t.faults[R.CreateRunner] != AlreadyExists {
              var message := ErrorText(t.faults[R.CreateRunner]);
              result := Decline(k, t, sandbox, RunnerCreateFailed, message, R.Erred(message));
              return;
            }
          } else if k !in pods {
            pods := pods[k := desired];
          }
          ghost var ensured := v.(pod := R.EnsureRunner(v, k, t, sandbox, sandboxClass));
          assert pods == R.PutIn(before.pods, k, ensured.pod);
          assert State() == R.Put(before, k, ensured) && R.At(State(), k) == ensured by {
            assert R.PutIn(before.sandboxes, k, v.sandbox) == before.sandboxes;
          }
          result := Inspect(k, t, sandbox, sandboxClass);
          EnsureThenInspect(before, k, t, sandbox, sandboxClass);
      }
    }
  }

  /** Writing a view twice at one key is writing the second one. */
  lemma PutTwice(s: Store, k: Key, v: R.View, w: R.View)
    ensures R.Put(R.Put(s, k, v), k, w) == R.Put(s, k, w)
  {
  }

  lemma EnsureThenInspect(s: Store, k: Key, t: R.Turn, sandbox: Sandbox, sandboxClass: SandboxClass)
    requires R.At(s, k).sandbox == Some(sandbox)
    ensures
      var v := R.At(s, k);
      var ensured := v.(pod := R.EnsureRunner(v, k, t, sandbox, sandboxClass));
      var verdict := R.Inspect(ensured.pod, k, t, sandbox, sandboxClass);
      && R.Enact(ensured, k, t, verdict) == R.Enact(v, k, t, verdict)
      && R.Put(R.Put(s, k, ensured), k, R.Enact(v, k, t, verdict).state) == R.Put(s, k, R.Enact(v, k, t, verdict).state)
  {
    var v := R.At(s, k);
    var ensured := v.(pod := R.EnsureRunner(v, k, t, sandbox, sandboxClass));
    PutTwice(s, k, ensured, R.Enact(v, k, t, R.Inspect(ensured.pod, k, t, sandbox, sandboxClass)).state);
  }
}
