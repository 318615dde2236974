/**
 The argument chain from admission to the runner: whatever happens, every runner the
 controller starts gets a capacity it accepts.
 */
module Capacity {
  import opened Objects
  import opened Runner
  import opened Access
  import opened Lifecycle
  import opened Incarnations
  import R = Reconciler

  /** Every stored sandbox satisfies the schema minima and every stored runner accepts its flags. */
  ghost predicate Accepted(s: Store) {
    && (forall k :: k in s.sandboxes ==> ValidSpec(s.sandboxes[k].spec))
    && (forall k :: k in s.pods ==> AcceptsCapacity(s.pods[k].template.args))
  }

  lemma ReconcileAccepts(v: R.View, k: Key, t: R.Turn)
    requires v.sandbox.Some? ==> ValidSpec(v.sandbox.value.spec)
    requires v.pod.Some? ==> AcceptsCapacity(v.pod.value.template.args)
    ensures
      var w := R.ReconcileView(v, k, t).state;
      w.pod.Some? ==> AcceptsCapacity(w.pod.value.template.args)
  {
    R.ReconcilePods(v, k, t);
    var inputs := R.ReadInputs(v, k, t);
    if inputs.Complete? {
      CapacityAcceptedIffSchemaMinima(inputs.sandbox, inputs.sandboxClass);
    }
  }

  lemma StepKeepsAccepted(cfg: Config, sys: Sys, a: Action)
    requires Accepted(sys.store)
    ensures Accepted(Step(cfg, sys, a).store)
  {
    var s, s' := sys.store, Step(cfg, sys, a).store;
    forall k
      ensures k in s'.sandboxes ==> ValidSpec(s'.sandboxes[k].spec)
    {
      SandboxStep(cfg, sys, a, k);
    }
    forall k
      ensures k in s'.pods ==> AcceptsCapacity(s'.pods[k].template.args)
    {
      PodStep(cfg, sys, a, k);
      if a.Reconcile? && a.key == k {
        ReconcileAccepts(R.At(s, k), k, a.turn);
      }
    }
  }

  /** In every reachable state the runner at any key passes the runner's own capacity check. */
  lemma {:induction false} RunnersAcceptTheirCapacity(cfg: Config, start: Sys, acts: seq<Action>, n: nat)
    requires n <= |acts| && Init(start) && start.store.pods == map[]
    ensures Accepted(After(cfg, start, acts, n).store)
  {
    if n > 0 {
      RunnersAcceptTheirCapacity(cfg, start, acts, n - 1);
      StepKeepsAccepted(cfg, After(cfg, start, acts, n - 1), acts[n - 1]);
    }
  }
}
