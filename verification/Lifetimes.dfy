/**
 One life of a sandbox, from the action that creates it: which object its key holds later, whose
 runner serves it and what the deferred cleanup of its request deletes.
 */
module Lifetimes {
  import opened Objects
  import opened Access
  import opened Lifecycle
  import opened Readiness
  import R = Reconciler

  // ------------------------------------------------------------------ uids

  /** Every uid in use has been handed out. */
  ghost predicate UidsBounded(s: Store) {
    && (forall k :: k in s.sandboxes ==> s.sandboxes[k].uid < s.nextUid)
    && (forall k :: k in s.pods ==> s.pods[k].owner < s.nextUid)
  }

  lemma ReconciledPodBounded(v: R.View, k: Key, t: R.Turn, bound: nat)
    requires v.sandbox.Some? ==> v.sandbox.value.uid < bound
    requires v.pod.Some? ==> v.pod.value.owner < bound
    ensures
      var w := R.ReconcileView(v, k, t).state;
      w.pod.Some? ==> w.pod.value.owner < bound
  {
    hide R.ReconcileView;
    R.ReconcilePods(v, k, t);
  }

  lemma StepKeepsUidsBounded(cfg: Config, sys: Sys, a: Action)
    requires UidsBounded(sys.store)
    ensures UidsBounded(Step(cfg, sys, a).store) && sys.store.nextUid <= Step(cfg, sys, a).store.nextUid
  {
    var s, s' := sys.store, Step(cfg, sys, a).store;
    forall k
      ensures s.nextUid <= s'.nextUid && (k in s'.sandboxes ==> s'.sandboxes[k].uid < s'.nextUid)
    {
      SandboxStep(cfg, sys, a, k);
    }
    SandboxStep(cfg, sys, a, Key("", ""));
    forall k
      ensures k in s'.pods ==> s'.pods[k].owner < s.nextUid
    {
      PodStep(cfg, sys, a, k);
      if a.Reconcile? && a.key == k {
        ReconciledPodBounded(R.At(s, k), k, a.turn, s.nextUid);
      }
    }
  }

  lemma {:induction false} UidsStayBounded(cfg: Config, start: Sys, acts: seq<Action>, i: nat, n: nat)
    requires i <= n <= |acts| && UidsBounded(start.store)
    ensures UidsBounded(After(cfg, start, acts, n).store)
    ensures After(cfg, start, acts, i).store.nextUid <= After(cfg, start, acts, n).store.nextUid
    decreases n
  {
    hide Step;
    if n > 0 {
      UidsStayBounded(cfg, start, acts, if i < n then i else n - 1, n - 1);
      StepKeepsUidsBounded(cfg, After(cfg, start, acts, n - 1), acts[n - 1]);
    }
  }

  /** Action `i` creates the sandbox at `k`. */
  ghost predicate Creates(cfg: Config, start: Sys, acts: seq<Action>, i: nat, k: Key)
    requires i < |acts|
  {
    Fresh(After(cfg, start, acts, i).store, After(cfg, start, acts, i + 1).store, k)
  }

  lemma NewerStep(cfg: Config, sys: Sys, a: Action, k: Key, bound: nat)
    requires bound <= sys.store.nextUid
    requires k in sys.store.sandboxes ==> sys.store.sandboxes[k].uid >= bound
    ensures
      var s' := Step(cfg, sys, a).store;
      k in s'.sandboxes ==> s'.sandboxes[k].uid >= bound
  {
    SandboxStep(cfg, sys, a, k);
  }

  /** A key that has been vacant since the creation holds a newer sandbox, if any. */
  lemma {:induction false} VacatedIsNewer(cfg: Config, start: Sys, acts: seq<Action>, i: nat, n: nat, k: Key)
    requires UidsBounded(start.store) && i < n <= |acts| && Creates(cfg, start, acts, i, k)
    requires !Occupied(cfg, start, acts, i + 1, n, k)
    ensures
      var s := After(cfg, start, acts, n).store;
      k in s.sandboxes ==> s.sandboxes[k].uid >= After(cfg, start, acts, i + 1).store.nextUid
  {
    hide Step;
    if i + 1 < n && k in After(cfg, start, acts, n).store.sandboxes {
      var before := After(cfg, start, acts, n - 1);
      if k in before.store.sandboxes {
        VacatedIsNewer(cfg, start, acts, i, n - 1, k);
      }
      UidsStayBounded(cfg, start, acts, i + 1, n - 1);
      NewerStep(cfg, before, acts[n - 1], k, After(cfg, start, acts, i + 1).store.nextUid);
    }
  }

  /** The key still holds the sandbox that action `i` created exactly when it has been occupied since. */
  lemma SameSandboxIffOccupied(cfg: Config, start: Sys, acts: seq<Action>, i: nat, n: nat, k: Key)
    requires UidsBounded(start.store) && i < n <= |acts| && Creates(cfg, start, acts, i, k)
    requires k in After(cfg, start, acts, n).store.sandboxes
    ensures
      After(cfg, start, acts, n).store.sandboxes[k].uid == After(cfg, start, acts, i).store.nextUid
      <==> Occupied(cfg, start, acts, i + 1, n, k)
  {
    hide Step, Occupied;
    if Occupied(cfg, start, acts, i + 1, n, k) {
      OccupantStays(cfg, start, acts, i + 1, n, k);
    } else {
      VacatedIsNewer(cfg, start, acts, i, n, k);
    }
  }

  // ------------------------------------------------------------------ whose runner it is

  /** The pod at `k`, if any, belongs to the sandbox there. */
  ghost predicate OwnRunner(s: Store, k: Key) {
    k in s.pods ==> k in s.sandboxes && s.pods[k].owner == s.sandboxes[k].uid
  }

  ghost predicate OwnRunnerThroughout(cfg: Config, start: Sys, acts: seq<Action>, i: nat, n: nat, k: Key)
    requires i <= n <= |acts|
  {
    OwnRunner(After(cfg, start, acts, n).store, k) && (i < n ==> OwnRunnerThroughout(cfg, start, acts, i, n - 1, k))
  }

  lemma OwnRunnerStep(cfg: Config, sys: Sys, a: Action, k: Key)
    requires OwnRunner(sys.store, k) && k in sys.store.sandboxes && k in Step(cfg, sys, a).store.sandboxes
    ensures OwnRunner(Step(cfg, sys, a).store, k)
  {
    OccupantStep(cfg, sys, a, k);
    PodStep(cfg, sys, a, k);
    if a.Reconcile? && a.key == k {
      ReconciledPodOwner(R.At(sys.store, k), k, a.turn);
    }
  }

  /** While a sandbox is in place its key sees own runners only, exactly if it did at first. */
  lemma {:induction false} OwnRunnerStays(cfg: Config, start: Sys, acts: seq<Action>, i: nat, n: nat, k: Key)
    requires i <= n <= |acts| && Occupied(cfg, start, acts, i, n, k)
    ensures OwnRunnerThroughout(cfg, start, acts, i, n, k) <==> OwnRunner(After(cfg, start, acts, i).store, k)
  {
    if i < n {
      OwnRunnerStays(cfg, start, acts, i, n - 1, k);
      if OwnRunner(After(cfg, start, acts, i).store, k) {
        OwnRunnerStep(cfg, After(cfg, start, acts, n - 1), acts[n - 1], k);
      }
    }
  }

  /** Creating a sandbox touches no pod and no secret. */
  lemma CreationKeepsRest(cfg: Config, sys: Sys, a: Action, k: Key)
    requires Fresh(sys.store, Step(cfg, sys, a).store, k)
    ensures Step(cfg, sys, a).store.pods == sys.store.pods && Step(cfg, sys, a).store.secrets == sys.store.secrets
  {
    match a
    case StepCreate(id, io) =>
      if id in sys.handlers {
        AdvanceSandbox(cfg, id, sys.handlers[id], sys.store, io, k);
        AdvanceFrame(cfg, id, sys.handlers[id], sys.store, io);
      }
    case Reconcile(q, turn) =>
      R.ReconcileFrame(sys.store, q, turn);
    case _ =>
  }

  /**
   As long as a sandbox lives, every pod of its name is its own, exactly when there was no pod of
   that name at its creation.
   */
  lemma RunnersAreOwnIff(cfg: Config, start: Sys, acts: seq<Action>, i: nat, n: nat, k: Key)
    requires UidsBounded(start.store) && i < n <= |acts| && Creates(cfg, start, acts, i, k)
    requires Occupied(cfg, start, acts, i + 1, n, k)
    ensures OwnRunnerThroughout(cfg, start, acts, i + 1, n, k) <==> k !in After(cfg, start, acts, i).store.pods
  {
    hide StepStore, StepHandler, StepStart, Occupied;
    UidsStayBounded(cfg, start, acts, i, i);
    CreationKeepsRest(cfg, After(cfg, start, acts, i), acts[i], k);
    OwnRunnerStays(cfg, start, acts, i + 1, n, k);
  }

  lemma {:induction false} OwnRunnerAt(cfg: Config, start: Sys, acts: seq<Action>, i: nat, j: nat, n: nat, k: Key)
    requires i <= j <= n <= |acts| && OwnRunnerThroughout(cfg, start, acts, i, n, k)
    ensures OwnRunner(After(cfg, start, acts, j).store, k)
  {
    hide After, OwnRunner;
    if j < n {
      OwnRunnerAt(cfg, start, acts, i, j, n - 1, k);
    }
  }

  /** A reconciliation that saw the sandbox of action `i` came later than that action. */
  lemma SeenAfterCreation(cfg: Config, start: Sys, acts: seq<Action>, i: nat, j: nat, k: Key)
    requires UidsBounded(start.store) && i < |acts| && j <= |acts|
    requires k in After(cfg, start, acts, j).store.sandboxes
    requires After(cfg, start, acts, j).store.sandboxes[k].uid == After(cfg, start, acts, i).store.nextUid
    ensures i < j
  {
    if j <= i {
      UidsStayBounded(cfg, start, acts, j, j);
      UidsStayBounded(cfg, start, acts, j, i);
    }
  }

  lemma SeenRunnerIsOwn(cfg: Config, start: Sys, acts: seq<Action>, i: nat, j: nat, n: nat, k: Key)
    requires UidsBounded(start.store) && i < n <= |acts| && Creates(cfg, start, acts, i, k) && j < n
    requires Occupied(cfg, start, acts, i + 1, n, k) && k !in After(cfg, start, acts, i).store.pods
    requires
      var s := After(cfg, start, acts, j).store;
      k in s.pods && k in s.sandboxes && s.sandboxes[k].uid == After(cfg, start, acts, i).store.nextUid
    ensures
      var s := After(cfg, start, acts, j).store;
      i < j && s.pods[k].owner == s.sandboxes[k].uid
  {
    hide Step, After, Occupied;
    SeenAfterCreation(cfg, start, acts, i, j, k);
    RunnersAreOwnIff(cfg, start, acts, i, n, k);
    OwnRunnerAt(cfg, start, acts, i + 1, j, n, k);
  }

  /**
   The runner behind Ready=True is the sandbox's own if there was no pod of its name when it was
   created.
   */
  lemma ReadyRunnerIsOwn(cfg: Config, start: Sys, acts: seq<Action>, i: nat, n: nat, k: Key)
    requires Init(start) && UidsBounded(start.store) && i < n <= |acts| && Creates(cfg, start, acts, i, k)
    requires Occupied(cfg, start, acts, i + 1, n, k) && k !in After(cfg, start, acts, i).store.pods
    requires R.IsReady(After(cfg, start, acts, n).store.sandboxes[k])
    ensures
      var sandbox := After(cfg, start, acts, n).store.sandboxes[k];
      && |sandbox.status.ips| == 1
      && exists j :: i < j < n
                     && ReadyCause(cfg, start, acts, j, k, sandbox, sandbox.status.ips[0])
                     && After(cfg, start, acts, j).store.pods[k].owner == sandbox.uid
  {
    hide Step;
    ReadyHasCause(cfg, start, acts, n, k);
    var sandbox := After(cfg, start, acts, n).store.sandboxes[k];
    var j :| 0 <= j < n && ReadyCause(cfg, start, acts, j, k, sandbox, sandbox.status.ips[0]);
    SameSandboxIffOccupied(cfg, start, acts, i, n, k);
    SeenRunnerIsOwn(cfg, start, acts, i, j, n, k);
  }

  // ------------------------------------------------------------------ what a cleanup deletes

  /** Action `i` is the step in which handler `id` creates its sandbox. */
  ghost predicate MakesSandbox(cfg: Config, start: Sys, acts: seq<Action>, i: nat, id: nat)
    requires i < |acts|
  {
    var sys, sys' := After(cfg, start, acts, i), After(cfg, start, acts, i + 1);
    && acts[i].StepCreate? && acts[i].id == id && id in sys.handlers
    && sys.handlers[id].pc == CreateSandbox && sys'.handlers[id].pc == OwnSecret
  }

  /** The request has created its sandbox under the given uid, or goes on after that. */
  predicate Owns(h: Handler, uid: nat) {
    h.createdHere && h.uid == uid && Stage(h.pc) >= 4
  }

  lemma OwnsStep(cfg: Config, sys: Sys, a: Action, id: nat, uid: nat)
    requires id in sys.handlers && Owns(sys.handlers[id], uid)
    ensures id in Step(cfg, sys, a).handlers && Owns(Step(cfg, sys, a).handlers[id], uid)
  {
    HandlerStep(cfg, sys, a, id);
    if a.StepCreate? && a.id == id {
      AdvanceStage(cfg, id, sys.handlers[id], sys.store, a.io);
      AdvanceMade(cfg, id, sys.handlers[id], sys.store, a.io);
    }
  }

  lemma {:induction false} OwnsStays(cfg: Config, start: Sys, acts: seq<Action>, i: nat, n: nat, id: nat, uid: nat)
    requires i <= n <= |acts|
    requires
      var handlers := After(cfg, start, acts, i).handlers;
      id in handlers && Owns(handlers[id], uid)
    ensures
      var handlers := After(cfg, start, acts, n).handlers;
      id in handlers && Owns(handlers[id], uid)
  {
    hide Step;
    if i < n {
      OwnsStays(cfg, start, acts, i, n - 1, id, uid);
      OwnsStep(cfg, After(cfg, start, acts, n - 1), acts[n - 1], id, uid);
    }
  }

  lemma MakingCreates(cfg: Config, start: Sys, acts: seq<Action>, i: nat, id: nat)
    requires i < |acts| && MakesSandbox(cfg, start, acts, i, id)
    ensures
      var sys, sys' := After(cfg, start, acts, i), After(cfg, start, acts, i + 1);
      && Creates(cfg, start, acts, i, SandboxKeyOf(cfg, sys.handlers[id]))
      && id in sys'.handlers && Owns(sys'.handlers[id], sys.store.nextUid)
      && SandboxKeyOf(cfg, sys'.handlers[id]) == SandboxKeyOf(cfg, sys.handlers[id])
  {
    var sys := After(cfg, start, acts, i);
    var h, io := sys.handlers[id], acts[i].io;
    assert Advance(cfg, id, h, sys.store, io) == AdvanceCreateSandbox(cfg, id, h, sys.store, io);
  }

  lemma UidPersists(cfg: Config, start: Sys, acts: seq<Action>, i: nat, n: nat, id: nat)
    requires i < n <= |acts| && MakesSandbox(cfg, start, acts, i, id)
    ensures
      var sys := After(cfg, start, acts, n);
      && id in sys.handlers && Owns(sys.handlers[id], After(cfg, start, acts, i).store.nextUid)
      && SandboxKeyOf(cfg, sys.handlers[id]) == SandboxKeyOf(cfg, After(cfg, start, acts, i).handlers[id])
  {
    hide Step;
    MakingCreates(cfg, start, acts, i, id);
    OwnsStays(cfg, start, acts, i + 1, n, id, After(cfg, start, acts, i).store.nextUid);
    HandlerPersists(cfg, start, acts, i + 1, n, id);
  }

  /**
   The deferred cleanup deletes by name. What it finds there is the sandbox its request created
   exactly when the key has been occupied since.
   */
  lemma CleanupDeletesOwnIff(cfg: Config, start: Sys, acts: seq<Action>, i: nat, n: nat, id: nat, k: Key)
    requires UidsBounded(start.store) && i < n <= |acts| && MakesSandbox(cfg, start, acts, i, id)
    requires k == SandboxKeyOf(cfg, After(cfg, start, acts, i).handlers[id])
    requires k in After(cfg, start, acts, n).store.sandboxes
    ensures
      var sys := After(cfg, start, acts, n);
      && id in sys.handlers && SandboxKeyOf(cfg, sys.handlers[id]) == k
      && (sys.store.sandboxes[k].uid == sys.handlers[id].uid <==> Occupied(cfg, start, acts, i + 1, n, k))
  {
    MakingCreates(cfg, start, acts, i, id);
    UidPersists(cfg, start, acts, i, n, id);
    SameSandboxIffOccupied(cfg, start, acts, i, n, k);
  }
}
