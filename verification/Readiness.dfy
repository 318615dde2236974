/**
 What Ready=True and a 201 reply mean, over every run of the lifecycle system.
 */
module Readiness {
  import opened Objects
  import opened Access
  import opened Lifecycle
  import R = Reconciler

  // ------------------------------------------------------------------ Ready=True has a cause

  /**
   Action `j` of the run reconciles `k` while the store holds the same sandbox together with a
   live, ready runner of the current template generation at address `ip`.
   */
  ghost predicate ReadyCause(cfg: Config, start: Sys, acts: seq<Action>, j: nat, k: Key, sandbox: Sandbox, ip: string)
    requires j < |acts|
  {
    var s := After(cfg, start, acts, j).store;
    && acts[j].Reconcile? && acts[j].key == k
    && R.ServingRunner(R.At(s, k), k, ip)
    && s.sandboxes[k].uid == sandbox.uid && s.sandboxes[k].spec == sandbox.spec
  }

  /** The sandbox at `k` has the given status in every state from `i` to `n`. */
  ghost predicate StatusSince(cfg: Config, start: Sys, acts: seq<Action>, i: nat, n: nat, k: Key, status: SandboxStatus)
    requires i <= n <= |acts|
  {
    var s := After(cfg, start, acts, n).store;
    k in s.sandboxes && s.sandboxes[k].status == status &&
      (i < n ==> StatusSince(cfg, start, acts, i, n - 1, k, status))
  }

  /**
   In every reachable state, a ready sandbox reports exactly one address and its own runner. The
   reconciliation that wrote this status, which has not changed since, found that runner serving
   at that address.
   */
  lemma {:induction false} ReadyHasCause(cfg: Config, start: Sys, acts: seq<Action>, n: nat, k: Key)
    requires Init(start) && n <= |acts|
    requires k in After(cfg, start, acts, n).store.sandboxes
    requires R.IsReady(After(cfg, start, acts, n).store.sandboxes[k])
    ensures
      var sandbox := After(cfg, start, acts, n).store.sandboxes[k];
      && R.ReportsOneAddress(sandbox, k.name)
      && exists j :: 0 <= j < n && ReadyCause(cfg, start, acts, j, k, sandbox, sandbox.status.ips[0])
                     && StatusSince(cfg, start, acts, j + 1, n, k, sandbox.status)
  {
    if n > 0 {
      var before, after := After(cfg, start, acts, n - 1), After(cfg, start, acts, n);
      var a := acts[n - 1];
      SandboxStep(cfg, before, a, k);
      if Fresh(before.store, after.store, k) {
        assert false;
      } else if before.store.sandboxes[k].status == after.store.sandboxes[k].status {
        ReadyHasCause(cfg, start, acts, n - 1, k);
        var sandbox := before.store.sandboxes[k];
        var j :| 0 <= j < n - 1 && ReadyCause(cfg, start, acts, j, k, sandbox, sandbox.status.ips[0])
                 && StatusSince(cfg, start, acts, j + 1, n - 1, k, sandbox.status);
        assert ReadyCause(cfg, start, acts, j, k, after.store.sandboxes[k], sandbox.status.ips[0]);
      } else {
        R.ReadyOnlyFromServingRunner(R.At(before.store, k), k, a.turn);
        assert ReadyCause(cfg, start, acts, n - 1, k, after.store.sandboxes[k], after.store.sandboxes[k].status.ips[0]);
      }
    }
  }

  // ------------------------------------------------------------------ whose runner it is

  /** Every pod belongs to the sandbox of its name. */
  ghost predicate PodsOwned(s: Store) {
    forall k :: k in s.pods ==> k in s.sandboxes && s.pods[k].owner == s.sandboxes[k].uid
  }

  /** Dependents of a deleted sandbox are collected with it. */
  predicate Eager(a: Action) {
    match a
    case StepCreate(_, io) => io.cascade
    case HandleDelete(_, _, io) => io.cascade
    case RemoveSandbox(_, io) => io.cascade
    case _ => true
  }

  lemma DeleteKeepsPodsOwned(s: Store, k: Key)
    requires PodsOwned(s)
    ensures PodsOwned(DeleteSandbox(s, k, true))
  {
  }

  lemma HandlerKeepsPodsOwned(cfg: Config, id: nat, h: Handler, s: Store, io: Io)
    requires PodsOwned(s) && io.cascade
    ensures PodsOwned(Advance(cfg, id, h, s, io).store)
  {
    AdvanceFrame(cfg, id, h, s, io);
    if h.pc == CreateSandbox {
      assert Advance(cfg, id, h, s, io) == AdvanceCreateSandbox(cfg, id, h, s, io);
    } else if h.pc == Cleanup {
      assert Advance(cfg, id, h, s, io) == AdvanceCleanup(cfg, id, h, s, io);
      DeleteKeepsPodsOwned(s, SandboxKeyOf(cfg, h));
    }
  }

  lemma ReconciledPodOwner(v: R.View, k: Key, t: R.Turn)
    requires v.pod.Some? ==> v.sandbox.Some? && v.pod.value.owner == v.sandbox.value.uid
    ensures
      var w := R.ReconcileView(v, k, t).state;
      w.pod.Some? ==> w.sandbox.Some? && w.pod.value.owner == w.sandbox.value.uid
  {
    hide R.ReconcileView;
    R.ReconcilePods(v, k, t);
  }

  lemma StepKeepsPodsOwned(cfg: Config, sys: Sys, a: Action)
    requires PodsOwned(sys.store) && Eager(a)
    ensures PodsOwned(Step(cfg, sys, a).store)
  {
    match a
    case StepCreate(id, io) =>
      if id in sys.handlers {
        HandlerKeepsPodsOwned(cfg, id, sys.handlers[id], sys.store, io);
      }
    case Reconcile(k, turn) =>
      R.ReconcileFrame(sys.store, k, turn);
      ReconciledPodOwner(R.At(sys.store, k), k, turn);
    case HandleDelete(token, name, io) =>
      var grant := Authorize(cfg, sys.store, token);
      if grant.Some? {
        DeleteKeepsPodsOwned(sys.store, Key(grant.value.namespace, name));
      }
    case RemoveSandbox(k, io) =>
      DeleteKeepsPodsOwned(sys.store, k);
    case _ =>
  }

  lemma {:induction false} PodsStayOwned(cfg: Config, start: Sys, acts: seq<Action>, n: nat)
    requires PodsOwned(start.store) && n <= |acts|
    requires forall i :: 0 <= i < n ==> Eager(acts[i])
    ensures PodsOwned(After(cfg, start, acts, n).store)
  {
    if n > 0 {
      PodsStayOwned(cfg, start, acts, n - 1);
      StepKeepsPodsOwned(cfg, After(cfg, start, acts, n - 1), acts[n - 1]);
    }
  }

  // ------------------------------------------------------------------ 201 replies

  predicate Admitted(pc: Pc) {
    pc == OwnSecret || pc == Poll || pc == Wait
  }

  /** The handler has passed admission and has not been turned away since. */
  predicate Underway(h: Handler) {
    Admitted(h.pc) || (h.reply.Some? && h.reply.value.Created?)
  }

  /** Action `i` is the step in which handler `id` creates its sandbox or joins an existing one. */
  ghost predicate Admits(cfg: Config, start: Sys, acts: seq<Action>, i: nat, id: nat)
    requires i < |acts|
  {
    var sys, sys' := After(cfg, start, acts, i), After(cfg, start, acts, i + 1);
    && acts[i].StepCreate? && acts[i].id == id
    && id in sys.handlers && id in sys'.handlers
    && !Underway(sys.handlers[id]) && Admitted(sys'.handlers[id].pc)
  }

  /** Handlers are never dropped and keep their grant and request. */
  lemma HandlerStep(cfg: Config, sys: Sys, a: Action, id: nat)
    requires id in sys.handlers
    ensures
      var sys' := Step(cfg, sys, a);
      && id in sys'.handlers
      && sys'.handlers[id].grant == sys.handlers[id].grant
      && sys'.handlers[id].request == sys.handlers[id].request
      && ((a.StepCreate? && a.id == id) || sys'.handlers[id] == sys.handlers[id])
  {
    if a.StepCreate? {
      if a.id in sys.handlers {
        AdvanceHandler(cfg, a.id, sys.handlers[a.id], sys.store, a.io);
      }
    }
  }

  lemma {:induction false} HandlerPersists(cfg: Config, start: Sys, acts: seq<Action>, i: nat, j: nat, id: nat)
    requires i <= j <= |acts|
    requires id in After(cfg, start, acts, i).handlers
    ensures
      var h, h' := After(cfg, start, acts, i).handlers[id], After(cfg, start, acts, j).handlers;
      id in h' && h'[id].grant == h.grant && h'[id].request == h.request
  {
    if i < j {
      HandlerPersists(cfg, start, acts, i, j - 1, id);
      HandlerStep(cfg, After(cfg, start, acts, j - 1), acts[j - 1], id);
    }
  }

  /** A handler under way has been admitted by an earlier action. */
  lemma {:induction false} UnderwayWasAdmitted(cfg: Config, start: Sys, acts: seq<Action>, n: nat, id: nat)
    requires Init(start) && n <= |acts|
    requires id in After(cfg, start, acts, n).handlers && Underway(After(cfg, start, acts, n).handlers[id])
    ensures exists i :: 0 <= i < n && Admits(cfg, start, acts, i, id)
  {
    if n > 0 {
      var before := After(cfg, start, acts, n - 1);
      if id in before.handlers && Underway(before.handlers[id]) {
        UnderwayWasAdmitted(cfg, start, acts, n - 1, id);
      } else {
        var a := acts[n - 1];
        if id in before.handlers {
          HandlerStep(cfg, before, a, id);
          AdvanceHandler(cfg, id, before.handlers[id], before.store, a.io);
        }
        assert Admits(cfg, start, acts, n - 1, id);
      }
    }
  }

  /** Admission checks or writes the identity of the sandbox it names. */
  lemma AdmissionFixesIdentity(cfg: Config, start: Sys, acts: seq<Action>, i: nat, id: nat)
    requires i < |acts| && Admits(cfg, start, acts, i, id)
    ensures
      var sys' := After(cfg, start, acts, i + 1);
      var h := sys'.handlers[id];
      var k := SandboxKeyOf(cfg, h);
      && k in sys'.store.sandboxes
      && var spec := sys'.store.sandboxes[k].spec;
         && spec.sandboxID == h.request.sandboxID && spec.workloadRef == h.request.workloadRef
         && spec.className == h.grant.className
  {
    var sys := After(cfg, start, acts, i);
    var h, io := sys.handlers[id], acts[i].io;
    AdvanceHandler(cfg, id, h, sys.store, io);
    if h.pc == ReadSandbox {
      assert Advance(cfg, id, h, sys.store, io).handler == AdvanceReadSandbox(cfg, h, sys.store, io);
    } else {
      assert Advance(cfg, id, h, sys.store, io) == AdvanceCreateSandbox(cfg, id, h, sys.store, io);
    }
  }

  lemma OccupantStep(cfg: Config, sys: Sys, a: Action, k: Key)
    requires k in sys.store.sandboxes && k in Step(cfg, sys, a).store.sandboxes
    ensures
      var before, after := sys.store.sandboxes[k], Step(cfg, sys, a).store.sandboxes[k];
      before.uid == after.uid && before.spec == after.spec
  {
    SandboxStep(cfg, sys, a, k);
  }

  /** The key is occupied in every state from `i` to `n`. */
  ghost predicate Occupied(cfg: Config, start: Sys, acts: seq<Action>, i: nat, n: nat, k: Key)
    requires i <= n <= |acts|
  {
    k in After(cfg, start, acts, n).store.sandboxes && (i < n ==> Occupied(cfg, start, acts, i, n - 1, k))
  }

  /** While a key stays occupied, the sandbox there keeps its uid and spec. */
  lemma {:induction false} OccupantStays(cfg: Config, start: Sys, acts: seq<Action>, i: nat, j: nat, k: Key)
    requires i <= j <= |acts| && Occupied(cfg, start, acts, i, j, k)
    ensures
      var before, after := After(cfg, start, acts, i).store.sandboxes, After(cfg, start, acts, j).store.sandboxes;
      k in before && k in after && before[k].uid == after[k].uid && before[k].spec == after[k].spec
  {
    if i < j {
      OccupantStays(cfg, start, acts, i, j - 1, k);
      OccupantStep(cfg, After(cfg, start, acts, j - 1), acts[j - 1], k);
    }
  }

  /** Action `n` makes handler `id` answer 201. */
  ghost predicate Answers201(cfg: Config, start: Sys, acts: seq<Action>, n: nat, id: nat)
    requires n < |acts|
  {
    var sys, sys' := After(cfg, start, acts, n), After(cfg, start, acts, n + 1);
    && acts[n].StepCreate? && acts[n].id == id
    && id in sys.handlers && id in sys'.handlers
    && !(sys.handlers[id].reply.Some? && sys.handlers[id].reply.value.Created?)
    && sys'.handlers[id].reply.Some? && sys'.handlers[id].reply.value.Created?
  }

  lemma Answers201Polls(cfg: Config, start: Sys, acts: seq<Action>, n: nat, id: nat)
    requires n < |acts| && Answers201(cfg, start, acts, n, id)
    ensures
      var sys, sys' := After(cfg, start, acts, n), After(cfg, start, acts, n + 1);
      var h := sys.handlers[id];
      var k := SandboxKeyOf(cfg, h);
      && h.pc == Poll
      && k in sys.store.sandboxes && R.IsReady(sys.store.sandboxes[k])
      && sys'.handlers[id].reply.value == Created(k.name, h.request.workloadRef.name, sys.store.sandboxes[k].status.ips)
  {
    var sys := After(cfg, start, acts, n);
    var h, io := sys.handlers[id], acts[n].io;
    AdvanceHandler(cfg, id, h, sys.store, io);
    assert Advance(cfg, id, h, sys.store, io).handler == AdvancePoll(cfg, h, sys.store, io);
  }

  /**
   Every 201 reply carries exactly one non-empty address, and an earlier reconciliation read
   that address off a serving runner of the sandbox the reply names.
   */
  lemma CreatedReplyHasServingAddress(cfg: Config, start: Sys, acts: seq<Action>, n: nat, id: nat)
    requires Init(start) && n < |acts| && Answers201(cfg, start, acts, n, id)
    ensures
      var sys := After(cfg, start, acts, n);
      var h := sys.handlers[id];
      var k := SandboxKeyOf(cfg, h);
      var reply := After(cfg, start, acts, n + 1).handlers[id].reply.value;
      && k in sys.store.sandboxes
      && reply.id == k.name && reply.name == h.request.workloadRef.name
      && |reply.ips| == 1 && reply.ips[0] != ""
      && exists j :: 0 <= j < n && ReadyCause(cfg, start, acts, j, k, sys.store.sandboxes[k], reply.ips[0])
  {
    var k := SandboxKeyOf(cfg, After(cfg, start, acts, n).handlers[id]);
    Answers201Polls(cfg, start, acts, n, id);
    ReadyHasCause(cfg, start, acts, n, k);
  }

  /** While its key stays occupied, a sandbox with the identity a handler asks for keeps it. */
  lemma IdentityKept(cfg: Config, start: Sys, acts: seq<Action>, m: nat, n: nat, id: nat)
    requires m <= n <= |acts| && id in After(cfg, start, acts, m).handlers
    requires
      var sys := After(cfg, start, acts, m);
      var k := SandboxKeyOf(cfg, sys.handlers[id]);
      k in sys.store.sandboxes && SameIdentity(sys.handlers[id], sys.store.sandboxes[k].spec)
    ensures
      var sys := After(cfg, start, acts, n);
      && id in sys.handlers
      && var h := sys.handlers[id];
         var k := SandboxKeyOf(cfg, h);
         Occupied(cfg, start, acts, m, n, k) ==>
           k in sys.store.sandboxes && SameIdentity(h, sys.store.sandboxes[k].spec)
  {
    HandlerPersists(cfg, start, acts, m, n, id);
    var k := SandboxKeyOf(cfg, After(cfg, start, acts, n).handlers[id]);
    if Occupied(cfg, start, acts, m, n, k) {
      OccupantStays(cfg, start, acts, m, n, k);
    }
  }

  /** If the key of an admitted handler stays occupied, the sandbox there keeps the identity it was admitted with. */
  lemma IdentityStays(cfg: Config, start: Sys, acts: seq<Action>, i: nat, n: nat, id: nat)
    requires i < n <= |acts| && Admits(cfg, start, acts, i, id)
    ensures
      var sys := After(cfg, start, acts, n);
      id in sys.handlers
    ensures
      var sys := After(cfg, start, acts, n);
      var h := sys.handlers[id];
      var k := SandboxKeyOf(cfg, h);
      Occupied(cfg, start, acts, i + 1, n, k) ==>
        k in sys.store.sandboxes && SameIdentity(h, sys.store.sandboxes[k].spec)
  {
    hide Step;
    AdmissionFixesIdentity(cfg, start, acts, i, id);
    IdentityKept(cfg, start, acts, i + 1, n, id);
  }

  /**
   A handler that answers 201 was admitted before. If its key stayed occupied from admission
   to reply, the sandbox the reply names has the request's sandbox ID and workload and the
   granted class, even when names collide.
   */
  lemma CreatedReplyNamesRequestedSandbox(cfg: Config, start: Sys, acts: seq<Action>, n: nat, id: nat) returns (i: nat)
    requires Init(start) && n < |acts| && Answers201(cfg, start, acts, n, id)
    ensures i < n && Admits(cfg, start, acts, i, id)
    ensures
      var sys := After(cfg, start, acts, n);
      var h := sys.handlers[id];
      var k := SandboxKeyOf(cfg, h);
      Occupied(cfg, start, acts, i + 1, n, k) ==>
        && k in sys.store.sandboxes
        && var spec := sys.store.sandboxes[k].spec;
           && spec.sandboxID == h.request.sandboxID && spec.workloadRef == h.request.workloadRef
           && spec.className == h.grant.className
  {
    Answers201Polls(cfg, start, acts, n, id);
    UnderwayWasAdmitted(cfg, start, acts, n, id);
    i :| 0 <= i < n && Admits(cfg, start, acts, i, id);
    IdentityStays(cfg, start, acts, i, n, id);
  }
}
