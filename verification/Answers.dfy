/**
 Exactly which answer each step of a create request gives, over the fields of the request and of
 the stored objects (`createSandbox` in internal/server/server.go), and what a refusal means over
 whole runs.
 */
module Answers {
  import opened Objects
  import opened Conditions
  import opened Access
  import opened Lifecycle
  import opened Readiness
  import R = Reconciler

  /** The handler has answered `reply` and is about to clean up. */
  predicate Replies(h: Handler, h': Handler, reply: Reply) {
    h' == h.(reply := Some(reply), completed := reply.Created?, pc := Cleanup)
  }

  /** A create request first checks its class, then its body. */
  lemma ClassCheckAnswers(cfg: Config, id: nat, h: Handler, s: Store, io: Io)
    requires h.pc == CheckClass
    ensures
      var e := Advance(cfg, id, h, s, io);
      var known := !io.fault && h.grant.className in s.classes;
      var complete :=
        h.decoded && h.request.workloadRef.name != "" && h.request.sandboxID != "" && h.request.userData != "";
      && e.store == s && e.calls == []
      && (!known ==> Replies(h, e.handler, Rejected(503)))
      && (known && !complete ==> Replies(h, e.handler, Rejected(400)))
      && (known && complete ==> e.handler == h.(pc := ReadSandbox))
  {
  }

  /** It joins a stored sandbox exactly when ID, class and workload are its own, and else answers 409. */
  lemma JoinsIffSameIdentity(cfg: Config, id: nat, h: Handler, s: Store, io: Io)
    requires h.pc == ReadSandbox
    ensures
      var e := Advance(cfg, id, h, s, io);
      var k := Key(h.grant.namespace, cfg.nameOf(h.request.sandboxID));
      && e.store == s && e.calls == []
      && (io.fault ==> Replies(h, e.handler, Rejected(500)))
      && (!io.fault && k !in s.sandboxes ==> e.handler == h.(pc := CreateSecret))
      && (!io.fault && k in s.sandboxes ==>
            var spec := s.sandboxes[k].spec;
            var same := spec.sandboxID == h.request.sandboxID && spec.className == h.grant.className
              && spec.workloadRef == h.request.workloadRef;
            && (e.handler == h.(pc := Poll) <==> same)
            && (Replies(h, e.handler, Rejected(409)) <==> !same))
  {
  }

  /** It stores its userdata in an immutable secret without owner, or takes the one that is there. */
  lemma StoresUserData(cfg: Config, id: nat, h: Handler, s: Store, io: Io)
    requires h.pc == CreateSecret
    ensures
      var e := Advance(cfg, id, h, s, io);
      var q := Key(h.grant.namespace, cfg.nameOf(h.request.sandboxID) + "-userdata");
      && (io.fault ==> Replies(h, e.handler, Rejected(500)) && e.store == s)
      && (!io.fault ==> e.handler == h.(pc := CreateSandbox))
      && (!io.fault && q in s.secrets ==> e.store == s)
      && (!io.fault && q !in s.secrets ==>
            var secret := Secret(map[], map[UserData := h.request.userData], None, true);
            e.store == s.(secrets := s.secrets[q := secret]))
  {
  }

  /** A failed creation is undone and answered 500; after a successful one the secret gets its owner. */
  lemma UndoesOrOwns(cfg: Config, id: nat, h: Handler, s: Store, io: Io)
    requires h.pc == DropSecret || h.pc == OwnSecret
    ensures
      var e := Advance(cfg, id, h, s, io);
      var k := Key(h.grant.namespace, cfg.nameOf(h.request.sandboxID));
      var q := Key(k.namespace, k.name + "-userdata");
      && e.store.sandboxes == s.sandboxes && (io.fault ==> e.store == s)
      && (h.pc == DropSecret ==> Replies(h, e.handler, Rejected(500)))
      && (h.pc == DropSecret && !io.fault ==> e.store.secrets == s.secrets - {q})
      && (h.pc == OwnSecret ==> e.handler == h.(pc := Poll))
      && (&& h.pc == OwnSecret && !io.fault && q in s.secrets
          && s.secrets[q].data == map[UserData := h.request.userData]
          && k in s.sandboxes && s.sandboxes[k].uid == h.uid ==>
            e.store.secrets == s.secrets[q := Secret(map[], s.secrets[q].data, Some(h.uid), true)])
  {
  }

  /** The end of a request deletes its sandbox exactly when it created one and did not answer 201. */
  lemma CleansUp(cfg: Config, id: nat, h: Handler, s: Store, io: Io)
    requires h.pc == Cleanup
    ensures
      var e := Advance(cfg, id, h, s, io);
      var k := Key(h.grant.namespace, cfg.nameOf(h.request.sandboxID));
      && e.handler == h.(pc := Done)
      && (!h.createdHere || h.completed ==> e.store == s && e.calls == [])
      && (h.createdHere && !h.completed ==> e.calls == [Audit(id, DeletesSandbox, k, !io.fault)])
      && (h.createdHere && !h.completed && !io.fault ==> e.store.sandboxes == s.sandboxes - {k})
  {
  }

  /**
   It creates the sandbox exactly when the key is free and the request meets the schema; sizes that
   the request gives are stored, others get their defaults.
   */
  lemma CreatesWhatIsAsked(cfg: Config, id: nat, h: Handler, s: Store, io: Io)
    requires h.pc == CreateSandbox
    ensures
      var e := Advance(cfg, id, h, s, io);
      var r := h.request;
      var name := cfg.nameOf(r.sandboxID);
      var k := Key(h.grant.namespace, name);
      var created :=
        && !io.fault && k !in s.sandboxes && r.workloadRef.name != "" && r.sandboxID != "" && h.grant.className != ""
        && (r.memoryMiB <= 0 || r.memoryMiB >= 128);
      && (!created ==> e.store == s && e.handler == h.(pc := DropSecret))
      && (created ==>
            && e.handler == h.(pc := OwnSecret, createdHere := true, uid := s.nextUid)
            && e.store.sandboxes.Keys == s.sandboxes.Keys + {k}
            && e.store.sandboxes[k].spec == SandboxSpec(
              r.workloadRef, r.sandboxID, name + "-userdata", h.grant.className,
              if r.vcpus > 0 then r.vcpus else 2, if r.memoryMiB > 0 then r.memoryMiB else 2048, r.arch)
            && e.store.sandboxes[k].status == SandboxStatus(0, None, "", [], []))
  {
  }

  /** Position `i` holds the first condition of type Ready. */
  predicate FirstReady(conditions: seq<Condition>, i: nat) {
    && i < |conditions| && conditions[i].kind == ConditionKind.Ready
    && forall j :: 0 <= j < i ==> conditions[j].kind != ConditionKind.Ready
  }

  predicate ReportsReady(status: SandboxStatus) {
    exists i :: 0 <= i < |status.conditions| && FirstReady(status.conditions, i) && status.conditions[i].status == True
  }

  predicate ReportsRunnerFailed(status: SandboxStatus) {
    exists i :: 0 <= i < |status.conditions| && FirstReady(status.conditions, i)
                && status.conditions[i].status == False && status.conditions[i].reason == RunnerFailed
  }

  /**
   A poll answers 201 exactly for a stored sandbox that reports Ready=True and has an address, 500
   exactly when it cannot read one or RunnerFailed is reported, and waits otherwise.
   */
  lemma PollAnswers(cfg: Config, id: nat, h: Handler, s: Store, io: Io)
    requires h.pc == Poll
    ensures
      var e := Advance(cfg, id, h, s, io);
      var k := Key(h.grant.namespace, cfg.nameOf(h.request.sandboxID));
      var read := !io.fault && k in s.sandboxes;
      && e.store == s && e.calls == []
      && (!read ==> Replies(h, e.handler, Rejected(500)))
      && (read ==>
            var status := s.sandboxes[k].status;
            var served, failed := ReportsReady(status) && status.ips != [], ReportsRunnerFailed(status);
            && (Replies(h, e.handler, Created(k.name, h.request.workloadRef.name, status.ips)) <==> served)
            && (Replies(h, e.handler, Rejected(500)) <==> failed)
            && (e.handler == h.(pc := Wait) <==> !served && !failed))
  {
    var k := Key(h.grant.namespace, cfg.nameOf(h.request.sandboxID));
    if k in s.sandboxes {
      FirstIsUnique(s.sandboxes[k].status);
    }
  }

  /** The three reports, by the condition that the search finds. */
  lemma FirstIsUnique(status: SandboxStatus)
    ensures
      var c := FindCondition(status.conditions, ConditionKind.Ready);
      && (ReportsReady(status) <==> c.Some? && c.value.status == True)
      && (ReportsRunnerFailed(status) <==> c.Some? && c.value.status == False && c.value.reason == RunnerFailed)
  {
    var c := FindCondition(status.conditions, ConditionKind.Ready);
    if c.Some? {
      var i :| 0 <= i < |status.conditions| && status.conditions[i] == c.value && FirstReady(status.conditions, i);
      assert forall j :: 0 <= j < |status.conditions| && FirstReady(status.conditions, j) ==> j == i;
    }
  }

  /** Between two polls a request waits, and answers 504 exactly when it has expired. */
  lemma WaitAnswers(cfg: Config, id: nat, h: Handler, s: Store, io: Io)
    requires h.pc == Wait
    ensures
      var e := Advance(cfg, id, h, s, io);
      && e.store == s && e.calls == []
      && (io.expired ==> Replies(h, e.handler, Rejected(504)))
      && (!io.expired ==> e.handler == h.(pc := Poll))
  {
  }

  // ------------------------------------------------------------------ what RunnerFailed means

  /** Action `j` reconciles `k` while the same sandbox has a stopped runner of the current generation. */
  ghost predicate FailureCause(cfg: Config, start: Sys, acts: seq<Action>, j: nat, k: Key, sandbox: Sandbox)
    requires j < |acts|
  {
    var s := After(cfg, start, acts, j).store;
    && acts[j].Reconcile? && acts[j].key == k
    && R.StoppedRunner(R.At(s, k), k)
    && s.sandboxes[k].uid == sandbox.uid && s.sandboxes[k].spec == sandbox.spec
  }

  /** No stored sandbox reports a failure. */
  ghost predicate NoFailures(s: Store) {
    forall k :: k in s.sandboxes ==> !R.ReportsFailure(s.sandboxes[k])
  }

  /** A step after which a failure is reported left status, uid and spec alone, or found a stopped runner. */
  lemma FailureStepCause(cfg: Config, sys: Sys, a: Action, k: Key)
    requires k in Step(cfg, sys, a).store.sandboxes && R.ReportsFailure(Step(cfg, sys, a).store.sandboxes[k])
    ensures
      && k in sys.store.sandboxes
      && var before, after := sys.store.sandboxes[k], Step(cfg, sys, a).store.sandboxes[k];
         && before.uid == after.uid && before.spec == after.spec
         && (|| before.status == after.status
             || (a.Reconcile? && a.key == k && R.StoppedRunner(R.At(sys.store, k), k)))
  {
    SandboxStep(cfg, sys, a, k);
    hide Step, R.ReconcileView;
    if k in sys.store.sandboxes && a.Reconcile? && a.key == k {
      R.FailureOnlyFromStoppedRunner(R.At(sys.store, k), k, a.turn);
    }
  }

  /**
   In every reachable state, a sandbox that reports RunnerFailed got this status, unchanged since,
   from a reconciliation that found its runner stopped.
   */
  lemma {:induction false} FailureHasCause(cfg: Config, start: Sys, acts: seq<Action>, n: nat, k: Key)
    requires NoFailures(start.store) && n <= |acts|
    requires k in After(cfg, start, acts, n).store.sandboxes
    requires R.ReportsFailure(After(cfg, start, acts, n).store.sandboxes[k])
    ensures
      var sandbox := After(cfg, start, acts, n).store.sandboxes[k];
      exists j :: 0 <= j < n && FailureCause(cfg, start, acts, j, k, sandbox)
                  && StatusSince(cfg, start, acts, j + 1, n, k, sandbox.status)
  {
    hide Step, R.StoppedRunner, R.ReportsFailure;
    if n > 0 {
      var before, after := After(cfg, start, acts, n - 1), After(cfg, start, acts, n);
      FailureStepCause(cfg, before, acts[n - 1], k);
      if before.store.sandboxes[k].status == after.store.sandboxes[k].status {
        SameStatusSameReport(before.store.sandboxes[k], after.store.sandboxes[k]);
        FailureHasCause(cfg, start, acts, n - 1, k);
        var sandbox := before.store.sandboxes[k];
        var j :| 0 <= j < n - 1 && FailureCause(cfg, start, acts, j, k, sandbox)
                 && StatusSince(cfg, start, acts, j + 1, n - 1, k, sandbox.status);
        assert FailureCause(cfg, start, acts, j, k, after.store.sandboxes[k]);
      } else {
        assert FailureCause(cfg, start, acts, n - 1, k, after.store.sandboxes[k]);
      }
    }
  }

  lemma SameStatusSameReport(a: Sandbox, b: Sandbox)
    requires a.status == b.status
    ensures R.ReportsFailure(a) <==> R.ReportsFailure(b)
  {
  }

  /** Action `n` is a poll of handler `id` whose read succeeds and which answers 500. */
  ghost predicate Polls500(cfg: Config, start: Sys, acts: seq<Action>, n: nat, id: nat)
    requires n < |acts|
  {
    var sys := After(cfg, start, acts, n);
    && acts[n].StepCreate? && acts[n].id == id && !acts[n].io.fault
    && id in sys.handlers && sys.handlers[id].pc == Poll
    && Replies(sys.handlers[id], AdvancePoll(cfg, sys.handlers[id], sys.store, acts[n].io), Rejected(500))
  }

  /**
   A request that polls without failing reads is given up with 500 only if its sandbox is gone or an
   earlier reconciliation found the runner of this very sandbox stopped.
   */
  lemma RefusedPollHasCause(cfg: Config, start: Sys, acts: seq<Action>, n: nat, id: nat)
    requires NoFailures(start.store) && n < |acts| && Polls500(cfg, start, acts, n, id)
    ensures
      var s, h := After(cfg, start, acts, n).store, After(cfg, start, acts, n).handlers[id];
      var k := Key(h.grant.namespace, cfg.nameOf(h.request.sandboxID));
      k in s.sandboxes ==> exists j :: 0 <= j < n && FailureCause(cfg, start, acts, j, k, s.sandboxes[k])
  {
    hide Step;
    var sys := After(cfg, start, acts, n);
    var h := sys.handlers[id];
    var k := Key(h.grant.namespace, cfg.nameOf(h.request.sandboxID));
    PollAnswers(cfg, id, h, sys.store, acts[n].io);
    if k in sys.store.sandboxes {
      FirstIsUnique(sys.store.sandboxes[k].status);
      FailureHasCause(cfg, start, acts, n, k);
    }
  }
}
