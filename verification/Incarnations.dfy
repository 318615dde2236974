/**
 How many runners one sandbox goes through.
 */
module Incarnations {
  import opened Objects
  import opened Runner
  import opened Access
  import opened Lifecycle
  import R = Reconciler

  /** The step creates a runner at `k`. */
  ghost predicate CreatesRunner(cfg: Config, sys: Sys, a: Action, k: Key) {
    k !in sys.store.pods && k in Step(cfg, sys, a).store.pods
  }

  /** The step takes away a runner that the controller had not asked to delete. */
  ghost predicate LosesRunner(cfg: Config, sys: Sys, a: Action, k: Key) {
    k in sys.store.pods && !sys.store.pods[k].terminating && k !in Step(cfg, sys, a).store.pods && !a.Reconcile?
  }

  function ClassOf(s: Store, k: Key): Option<SandboxClass> {
    if k in s.sandboxes && s.sandboxes[k].spec.className in s.classes
    then Some(s.classes[s.sandboxes[k].spec.className]) else None
  }

  /**
   The step gives the sandbox at `k` another class, by writing the class or putting it back, or it
   puts a new sandbox over a pod of that name.
   */
  ghost predicate ChangesTemplate(cfg: Config, sys: Sys, a: Action, k: Key) {
    var s, s' := sys.store, Step(cfg, sys, a).store;
    || (k in s'.sandboxes && k !in s.sandboxes && k in s.pods)
    || (k in s.sandboxes && k in s'.sandboxes && ClassOf(s', k).Some? && ClassOf(s, k) != ClassOf(s', k))
  }

  ghost function RunnersCreated(cfg: Config, start: Sys, acts: seq<Action>, n: nat, k: Key): nat
    requires n <= |acts|
  {
    if n == 0 then 0
    else
      var sys := After(cfg, start, acts, n - 1);
      RunnersCreated(cfg, start, acts, n - 1, k) + Bit(CreatesRunner(cfg, sys, acts[n - 1], k))
  }

  ghost function Losses(cfg: Config, start: Sys, acts: seq<Action>, n: nat, k: Key): nat
    requires n <= |acts|
  {
    if n == 0 then 0
    else
      var sys := After(cfg, start, acts, n - 1);
      Losses(cfg, start, acts, n - 1, k) + Bit(LosesRunner(cfg, sys, acts[n - 1], k))
  }

  ghost function TemplateChanges(cfg: Config, start: Sys, acts: seq<Action>, n: nat, k: Key): nat
    requires n <= |acts|
  {
    if n == 0 then 0
    else
      var sys := After(cfg, start, acts, n - 1);
      TemplateChanges(cfg, start, acts, n - 1, k) + Bit(ChangesTemplate(cfg, sys, acts[n - 1], k))
  }

  /** A runner is there that no reconciliation would replace. */
  predicate SettledView(v: R.View, k: Key) {
    && v.pod.Some? && !v.pod.value.terminating
    && (v.sandbox.Some? && v.sandbox.value.spec.className in v.classes ==>
          Current(v.pod.value.template, k.name, v.sandbox.value, v.classes[v.sandbox.value.spec.className]))
  }

  predicate Settled(s: Store, k: Key) {
    SettledView(R.At(s, k), k)
  }

  /** Writing a class makes every runner of its sandboxes stale. */
  lemma WrittenClassReplacesRunner(cfg: Config, sys: Sys, k: Key, sandboxClass: SandboxClass)
    requires k in sys.store.sandboxes && k in sys.store.pods && ClassOf(sys.store, k).Some?
    requires Current(sys.store.pods[k].template, k.name, sys.store.sandboxes[k], ClassOf(sys.store, k).value)
    ensures
      var s' := Step(cfg, sys, PutClass(sys.store.sandboxes[k].spec.className, sandboxClass)).store;
      && k in s'.sandboxes && k in s'.pods && ClassOf(s', k).Some?
      && !Current(s'.pods[k].template, k.name, s'.sandboxes[k], ClassOf(s', k).value)
  {
    var s, s' := sys.store, StepPutClass(sys.store, sys.store.sandboxes[k].spec.className, sandboxClass);
    var sandbox, before, after := s.sandboxes[k], ClassOf(s, k).value, ClassOf(s', k).value;
    DesiredRunnerIsCurrent(k.name, sandbox, before);
    DesiredRunnerIsCurrent(k.name, sandbox, after);
    CurrentIffSameGenerations(k.name, sandbox, before, k.name, sandbox, after);
  }

  /** A reconciliation keeps a settled runner, and a runner it creates is settled. */
  lemma ReconcileSettles(v: R.View, k: Key, t: R.Turn)
    ensures
      var w := R.ReconcileView(v, k, t).state;
      SettledView(v, k) || (v.pod.None? && w.pod.Some?) ==> SettledView(w, k)
  {
    R.ReconcilePods(v, k, t);
    var inputs := R.ReadInputs(v, k, t);
    if inputs.Complete? {
      DesiredRunnerIsCurrent(k.name, inputs.sandbox, inputs.sandboxClass);
    }
  }

  lemma ReconcileBalance(cfg: Config, sys: Sys, k: Key, t: R.Turn)
    ensures
      var a := Reconcile(k, t);
      Bit(CreatesRunner(cfg, sys, a, k)) + Bit(Settled(sys.store, k)) <= Bit(Settled(Step(cfg, sys, a).store, k))
  {
    R.ReconcileFrame(sys.store, k, t);
    ReconcileSettles(R.At(sys.store, k), k, t);
  }

  /** A step that is not a reconciliation of `k` settles the balance of creations, losses and changes. */
  lemma OtherBalance(cfg: Config, sys: Sys, a: Action, k: Key)
    requires !(a.Reconcile? && a.key == k)
    ensures !CreatesRunner(cfg, sys, a, k)
    ensures
      Bit(Settled(sys.store, k))
      <= Bit(Settled(Step(cfg, sys, a).store, k)) + Bit(LosesRunner(cfg, sys, a, k)) +
        Bit(ChangesTemplate(cfg, sys, a, k))
  {
    hide Step;
    PodStep(cfg, sys, a, k);
    SandboxStep(cfg, sys, a, k);
  }

  lemma StepBalance(cfg: Config, sys: Sys, a: Action, k: Key)
    ensures
      Bit(CreatesRunner(cfg, sys, a, k)) + Bit(Settled(sys.store, k))
      <= Bit(Settled(Step(cfg, sys, a).store, k)) + Bit(LosesRunner(cfg, sys, a, k)) +
        Bit(ChangesTemplate(cfg, sys, a, k))
  {
    if a.Reconcile? && a.key == k {
      ReconcileBalance(cfg, sys, k, a.turn);
    } else {
      OtherBalance(cfg, sys, a, k);
    }
  }

  lemma BalanceAt(cfg: Config, start: Sys, acts: seq<Action>, n: nat, k: Key)
    requires n < |acts|
    ensures
      RunnersCreated(cfg, start, acts, n + 1, k) - RunnersCreated(cfg, start, acts, n, k)
         + Bit(Settled(After(cfg, start, acts, n).store, k))
      <= Bit(Settled(After(cfg, start, acts, n + 1).store, k))
         + Losses(cfg, start, acts, n + 1, k) - Losses(cfg, start, acts, n, k)
         + TemplateChanges(cfg, start, acts, n + 1, k) - TemplateChanges(cfg, start, acts, n, k)
  {
    StepBalance(cfg, After(cfg, start, acts, n), acts[n], k);
  }

  /**
   Over every run, the runners created for a key number at most one more than the runners lost
   to others plus the changes of its class or sandbox: the controller alone never churns.
   */
  lemma {:induction false} RunnersAreBounded(cfg: Config, start: Sys, acts: seq<Action>, n: nat, k: Key)
    requires n <= |acts|
    ensures
      RunnersCreated(cfg, start, acts, n, k)
      <= Losses(cfg, start, acts, n, k) + TemplateChanges(cfg, start, acts, n, k) +
        Bit(Settled(After(cfg, start, acts, n).store, k))
    ensures RunnersCreated(cfg, start, acts, n, k) <=
      1 + Losses(cfg, start, acts, n, k) + TemplateChanges(cfg, start, acts, n, k)
  {
    hide Step;
    if n > 0 {
      RunnersAreBounded(cfg, start, acts, n - 1, k);
      BalanceAt(cfg, start, acts, n - 1, k);
    }
  }
}
