/**
 A runner that has failed or completed stays the last word on its sandbox, over every run in
 which its class, its pod and its sandbox are left in place.
 */
module StoppedRunners {
  import opened Objects
  import opened Access
  import opened Lifecycle
  import R = Reconciler

  /** The sandbox and its pod are there, and the class is `sandboxClass`. */
  ghost predicate InPlace(s: Store, k: Key, sandboxClass: SandboxClass) {
    && k in s.sandboxes && !s.sandboxes[k].deleting && k in s.pods
    && s.sandboxes[k].spec.className in s.classes && s.classes[s.sandboxes[k].spec.className] == sandboxClass
  }

  /** Neither the class nor the pod nor the sandbox at `k` goes away or is replaced. */
  ghost predicate Undisturbed(cfg: Config, start: Sys, acts: seq<Action>, n: nat, k: Key, sandboxClass: SandboxClass)
    requires n <= |acts|
  {
    && InPlace(After(cfg, start, acts, n).store, k, sandboxClass)
    && (n > 0 ==> Undisturbed(cfg, start, acts, n - 1, k, sandboxClass))
  }

  /** One undisturbed step keeps the runner stopped and never makes the sandbox ready. */
  lemma StoppedStep(cfg: Config, sys: Sys, a: Action, k: Key, sandboxClass: SandboxClass)
    requires R.StoppedRunner(R.At(sys.store, k), k)
    requires InPlace(sys.store, k, sandboxClass) && InPlace(Step(cfg, sys, a).store, k, sandboxClass)
    ensures R.StoppedRunner(R.At(Step(cfg, sys, a).store, k), k)
    ensures R.IsReady(Step(cfg, sys, a).store.sandboxes[k]) ==> R.IsReady(sys.store.sandboxes[k])
    ensures Step(cfg, sys, a).store.sandboxes[k] == sys.store.sandboxes[k] || (a.Reconcile? && a.key == k)
  {
    SandboxStep(cfg, sys, a, k);
    PodStep(cfg, sys, a, k);
    if a.Reconcile? && a.key == k {
      R.StoppedRunnerVerdict(R.At(sys.store, k), k, a.turn);
      R.StoppedRunnerNeverReady(R.At(sys.store, k), k, a.turn);
    }
  }

  /** The sandbox at `k` is not ready and its runner has stopped. */
  ghost predicate Halted(s: Store, k: Key) {
    R.StoppedRunner(R.At(s, k), k) && !R.IsReady(s.sandboxes[k])
  }

  lemma HaltedStep(cfg: Config, sys: Sys, a: Action, k: Key, sandboxClass: SandboxClass)
    requires Halted(sys.store, k)
    requires InPlace(sys.store, k, sandboxClass) && InPlace(Step(cfg, sys, a).store, k, sandboxClass)
    ensures Halted(Step(cfg, sys, a).store, k)
  {
    StoppedStep(cfg, sys, a, k, sandboxClass);
  }

  /** Under any faults, a sandbox with a stopped runner does not become ready. */
  lemma {:induction false} StoppedStays(cfg: Config, start: Sys, acts: seq<Action>, n: nat, k: Key,
      sandboxClass: SandboxClass)
    requires Halted(start.store, k)
    requires n <= |acts| && Undisturbed(cfg, start, acts, n, k, sandboxClass)
    ensures Halted(After(cfg, start, acts, n).store, k)
  {
    if n > 0 {
      StoppedStays(cfg, start, acts, n - 1, k, sandboxClass);
      var sys := After(cfg, start, acts, n - 1);
      assert After(cfg, start, acts, n) == Step(cfg, sys, acts[n - 1]);
      HaltedStep(cfg, sys, acts[n - 1], k, sandboxClass);
    }
  }

  /** So no request for that key is answered with 201 in the meantime. */
  lemma NoCreatedReplyWhileStopped(
    cfg: Config, start: Sys, acts: seq<Action>, n: nat, k: Key, sandboxClass: SandboxClass, h: Handler, io: Io)
    requires Halted(start.store, k)
    requires n <= |acts| && Undisturbed(cfg, start, acts, n, k, sandboxClass)
    requires h.pc == Poll && SandboxKeyOf(cfg, h) == k
    ensures AdvancePoll(cfg, h, After(cfg, start, acts, n).store, io).pc == Wait
            || AdvancePoll(cfg, h, After(cfg, start, acts, n).store, io) == Answer(h, Rejected(500))
  {
    StoppedStays(cfg, start, acts, n, k, sandboxClass);
  }

  /** The step does not reconcile `k`, writes no status, or finds class, userdata and runner. */
  predicate KeepsReport(s: Store, a: Action, k: Key) {
    a.Reconcile? && a.key == k ==>
      || R.WritesNothing(R.At(s, k), k, a.turn)
      || (R.ReadInputs(R.At(s, k), k, a.turn).Complete? && R.SeesRunner(a.turn))
  }

  /** The runner has stopped and the status says so. */
  ghost predicate FailureReported(s: Store, k: Key) {
    R.StoppedRunner(R.At(s, k), k) && R.ReportsFailure(s.sandboxes[k])
  }

  /** In one undisturbed step the report stays exactly in these cases. */
  lemma FailureStep(cfg: Config, sys: Sys, a: Action, k: Key, sandboxClass: SandboxClass)
    requires FailureReported(sys.store, k)
    requires InPlace(sys.store, k, sandboxClass) && InPlace(Step(cfg, sys, a).store, k, sandboxClass)
    ensures FailureReported(Step(cfg, sys, a).store, k) <==> KeepsReport(sys.store, a, k)
  {
    StoppedStep(cfg, sys, a, k, sandboxClass);
    if a.Reconcile? && a.key == k {
      R.FailureReportedIff(R.At(sys.store, k), k, a.turn);
      R.ReconcileFrame(sys.store, k, a.turn);
    }
  }

  /** RunnerFailed is reported in every state up to `n`. */
  ghost predicate ReportedThroughout(cfg: Config, start: Sys, acts: seq<Action>, n: nat, k: Key)
    requires n <= |acts|
  {
    FailureReported(After(cfg, start, acts, n).store, k) && (n > 0 ==> ReportedThroughout(cfg, start, acts, n - 1, k))
  }

  /** Each of the first `n` actions keeps the report. */
  ghost predicate AllKeepReport(cfg: Config, start: Sys, acts: seq<Action>, n: nat, k: Key)
    requires n <= |acts|
  {
    n > 0 ==>
      && KeepsReport(After(cfg, start, acts, n - 1).store, acts[n - 1], k)
      && AllKeepReport(cfg, start, acts, n - 1, k)
  }

  /**
   Over every run, RunnerFailed stays reported throughout exactly when each reconciliation writes
   no status or can read class, userdata and runner.
   */
  lemma {:induction false} FailureStaysReportedIff(
    cfg: Config, start: Sys, acts: seq<Action>, n: nat, k: Key, sandboxClass: SandboxClass)
    requires FailureReported(start.store, k)
    requires n <= |acts| && Undisturbed(cfg, start, acts, n, k, sandboxClass)
    ensures ReportedThroughout(cfg, start, acts, n, k) <==> AllKeepReport(cfg, start, acts, n, k)
  {
    hide Step, InPlace, FailureReported, KeepsReport;
    if n > 0 {
      FailureStaysReportedIff(cfg, start, acts, n - 1, k, sandboxClass);
      if FailureReported(After(cfg, start, acts, n - 1).store, k) {
        FailureStep(cfg, After(cfg, start, acts, n - 1), acts[n - 1], k, sandboxClass);
      }
    }
  }

  /** In such a run every poll for that key answers 500 and ends the request. */
  lemma PollFailsWhileReported(
    cfg: Config, start: Sys, acts: seq<Action>, n: nat, k: Key, sandboxClass: SandboxClass, h: Handler, io: Io)
    requires FailureReported(start.store, k)
    requires n <= |acts| && Undisturbed(cfg, start, acts, n, k, sandboxClass)
    requires AllKeepReport(cfg, start, acts, n, k)
    requires h.pc == Poll && SandboxKeyOf(cfg, h) == k
    ensures AdvancePoll(cfg, h, After(cfg, start, acts, n).store, io) == Answer(h, Rejected(500))
  {
    hide Step;
    FailureStaysReportedIff(cfg, start, acts, n, k, sandboxClass);
  }
}
