/**
 Rolling out a class change: the class watch enqueues every sandbox of the class
 (`sandboxesForClass` in internal/controller/podsandbox_controller.go) and the queue
 reconciles them in some order.
 */
module Rollout {
  import opened Objects
  import opened Runner
  import opened Reconciler

  datatype Item = Item(key: Key, sandbox: Sandbox)

  predicate Distinct<T(==)>(xs: seq<T>) {
    forall i, j :: 0 <= i < j < |xs| ==> xs[i] != xs[j]
  }

  /** The list call returns every stored sandbox once, in any order. */
  ghost predicate Lists(items: seq<Item>, s: Store) {
    && (forall i, j :: 0 <= i < j < |items| ==> items[i].key != items[j].key)
    && (forall i :: 0 <= i < |items| ==> items[i].key in s.sandboxes && s.sandboxes[items[i].key] == items[i].sandbox)
    && (forall k :: k in s.sandboxes ==> exists i :: 0 <= i < |items| && items[i].key == k)
  }

  ghost predicate OfClass(s: Store, k: Key, className: string) {
    k in s.sandboxes && s.sandboxes[k].spec.className == className
  }

  /** Enqueues each sandbox of the class exactly once, and nothing when the list call fails. */
  method SandboxesForClass(items: seq<Item>, listFails: bool, className: string, ghost s: Store)
    returns (requests: seq<Key>)
    requires Lists(items, s)
    ensures Distinct(requests)
    ensures listFails ==> requests == []
    ensures !listFails ==> forall k :: k in requests <==> OfClass(s, k, className)
  {
    requests := [];
    if listFails {
      return;
    }
    for i := 0 to |items|
      invariant Distinct(requests)
      invariant forall k :: k in requests ==> exists j :: 0 <= j < i && items[j].key == k
      invariant forall k :: k in requests ==> OfClass(s, k, className)
      invariant forall j :: 0 <= j < i && items[j].sandbox.spec.className == className ==> items[j].key in requests
    {
      if items[i].sandbox.spec.className == className {
        assert items[i].key !in requests;
        requests := requests + [items[i].key];
      }
    }
  }

  datatype Job = Job(key: Key, turn: Turn)

  /** Reconciles a queue of keys one after the other. */
  function ReconcileAll(s: Store, jobs: seq<Job>): Store
    decreases |jobs|
  {
    if jobs == [] then s else ReconcileAll(Reconcile(s, jobs[0].key, jobs[0].turn).state, jobs[1..])
  }

  lemma AtElsewhere(s: Store, k: Key, t: Turn, q: Key)
    requires k != q
    ensures At(Reconcile(s, k, t).state, q) == At(s, q)
  {
    PutElsewhere(s, k, ReconcileView(At(s, k), k, t).state, q);
  }

  /** A pass changes nothing at a key it does not hold. */
  lemma {:induction false} PassElsewhere(s: Store, jobs: seq<Job>, q: Key)
    requires forall i :: 0 <= i < |jobs| ==> jobs[i].key != q
    ensures At(ReconcileAll(s, jobs), q) == At(s, q)
    decreases |jobs|
  {
    if jobs != [] {
      AtElsewhere(s, jobs[0].key, jobs[0].turn, q);
      PassElsewhere(Reconcile(s, jobs[0].key, jobs[0].turn).state, jobs[1..], q);
    }
  }

  predicate DistinctKeys(jobs: seq<Job>) {
    forall i, j :: 0 <= i < j < |jobs| ==> jobs[i].key != jobs[j].key
  }

  /** In a pass without repeated keys each key is reconciled as if it were alone, in any order. */
  lemma {:induction false} PassAtKey(s: Store, jobs: seq<Job>, i: nat)
    requires i < |jobs| && DistinctKeys(jobs)
    ensures At(ReconcileAll(s, jobs), jobs[i].key) == ReconcileView(At(s, jobs[i].key), jobs[i].key, jobs[i].turn).state
    decreases |jobs|
  {
    var first := jobs[0];
    var next := Reconcile(s, first.key, first.turn).state;
    if i == 0 {
      PassElsewhere(next, jobs[1..], first.key);
      ReconcileFrame(s, first.key, first.turn);
    } else {
      AtElsewhere(s, first.key, first.turn, jobs[i].key);
      PassAtKey(next, jobs[1..], i - 1);
    }
  }

  /** One full pass over the sandboxes of a class, without faults. */
  ghost predicate FullPass(s: Store, className: string, jobs: seq<Job>) {
    && DistinctKeys(jobs)
    && (forall i :: 0 <= i < |jobs| ==> Faultless(jobs[i].turn) && OfClass(s, jobs[i].key, className))
    && (forall k :: OfClass(s, k, className) ==> exists i :: 0 <= i < |jobs| && jobs[i].key == k)
  }

  predicate HasUserData(s: Store, k: Key) {
    && k in s.sandboxes
    && var secretKey := Key(k.namespace, s.sandboxes[k].spec.userDataSecret);
       secretKey in s.secrets && UserData in s.secrets[secretKey].data
  }

  /** The runner at `k` was built for the class as it is now. */
  predicate OnCurrentRunner(v: View, k: Key) {
    && v.sandbox.Some? && v.sandbox.value.spec.className in v.classes
    && v.pod.Some?
    && Lookup(v.pod.value.template.annotations, TemplateGenerationKey)
       == TemplateGeneration(v.sandbox.value, v.classes[v.sandbox.value.spec.className])
  }

  /** One reconciliation with all inputs leaves the sandbox on a current runner unless the runner was stale. */
  lemma OnePassSufficesIffNotStale(v: View, k: Key, t: Turn)
    requires Faultless(t) && ReadInputs(v, k, t).Complete?
    ensures OnCurrentRunner(ReconcileView(v, k, t).state, k) <==> !Stale(v, k, t)
  {
    var inputs := ReadInputs(v, k, t);
    DesiredRunnerIsCurrent(k.name, inputs.sandbox, inputs.sandboxClass);
  }

  lemma TwoTurnsReachCurrentRunner(v: View, k: Key, t: Turn, u: Turn)
    requires Faultless(t) && Faultless(u) && ReadInputs(v, k, t).Complete?
    ensures OnCurrentRunner(ReconcileView(ReconcileView(v, k, t).state, k, u).state, k)
  {
    var once := ReconcileView(v, k, t).state;
    assert ReadInputs(once, k, u).Complete?;
    NotStaleAfterReconcile(v, k, t, u);
    OnePassSufficesIffNotStale(once, k, u);
  }

  /** A pass keeps the set of sandboxes of each class. */
  lemma {:induction false} PassKeepsClasses(s: Store, jobs: seq<Job>, className: string, k: Key)
    ensures OfClass(ReconcileAll(s, jobs), k, className) <==> OfClass(s, k, className)
    decreases |jobs|
  {
    if jobs != [] {
      ReconcileFrame(s, jobs[0].key, jobs[0].turn);
      PassKeepsClasses(Reconcile(s, jobs[0].key, jobs[0].turn).state, jobs[1..], className, k);
    }
  }

  lemma RolloutReaches(s: Store, className: string, first: seq<Job>, second: seq<Job>, k: Key)
    requires className in s.classes
    requires FullPass(s, className, first) && FullPass(ReconcileAll(s, first), className, second)
    requires OfClass(s, k, className) && !s.sandboxes[k].deleting && HasUserData(s, k)
    ensures OnCurrentRunner(At(ReconcileAll(ReconcileAll(s, first), second), k), k)
  {
    hide ReconcileAll;
    PassKeepsClasses(s, first, className, k);
    var i :| 0 <= i < |first| && first[i].key == k;
    var j :| 0 <= j < |second| && second[j].key == k;
    PassAtKey(s, first, i);
    PassAtKey(ReconcileAll(s, first), second, j);
    TwoTurnsReachCurrentRunner(At(s, k), k, first[i].turn, second[j].turn);
  }

  lemma RolloutSpares(s: Store, className: string, first: seq<Job>, second: seq<Job>, k: Key)
    requires FullPass(s, className, first) && FullPass(ReconcileAll(s, first), className, second)
    requires !OfClass(s, k, className)
    ensures At(ReconcileAll(ReconcileAll(s, first), second), k) == At(s, k)
  {
    PassKeepsClasses(s, first, className, k);
    PassElsewhere(s, first, k);
    PassElsewhere(ReconcileAll(s, first), second, k);
  }

  /**
   Two full passes, each in any order of its own, put every live sandbox of the class that
   has its userdata on a runner of the current template generation; every sandbox and runner
   of another class is as before.
   */
  lemma RolloutCompletes(s: Store, className: string, first: seq<Job>, second: seq<Job>)
    requires className in s.classes
    requires FullPass(s, className, first) && FullPass(ReconcileAll(s, first), className, second)
    ensures
      var end := ReconcileAll(ReconcileAll(s, first), second);
      && (forall k :: OfClass(s, k, className) && !s.sandboxes[k].deleting && HasUserData(s, k)
                      ==> OnCurrentRunner(At(end, k), k))
      && (forall k :: !OfClass(s, k, className) ==> At(end, k) == At(s, k))
  {
    var end := ReconcileAll(ReconcileAll(s, first), second);
    forall k | OfClass(s, k, className) && !s.sandboxes[k].deleting && HasUserData(s, k)
      ensures OnCurrentRunner(At(end, k), k)
    {
      RolloutReaches(s, className, first, second, k);
    }
    forall k | !OfClass(s, k, className)
      ensures At(end, k) == At(s, k)
    {
      RolloutSpares(s, className, first, second, k);
    }
  }
}
