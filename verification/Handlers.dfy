/**
 What create and delete handlers may do: the cleanup rule of a create request, confinement to
 the granted class and namespace.
 */
module Handlers {
  import opened Objects
  import opened Access
  import opened Lifecycle
  import R = Reconciler

  // ------------------------------------------------------------------ the cleanup rule

  predicate IsCreation(x: Audit, id: nat) {
    x.actor == id && x.verb.CreatesSandbox? && x.ok
  }

  predicate IsDeletion(x: Audit, id: nat) {
    x.actor == id && x.verb.DeletesSandbox?
  }

  /** Sandboxes that handler `id` has created, by the API server's log. */
  function Creations(log: seq<Audit>, id: nat): nat {
    if log == [] then 0 else Creations(log[..|log| - 1], id) + Bit(IsCreation(log[|log| - 1], id))
  }

  /** Sandbox deletions that handler `id` has requested, by the API server's log. */
  function Deletions(log: seq<Audit>, id: nat): nat {
    if log == [] then 0 else Deletions(log[..|log| - 1], id) + Bit(IsDeletion(log[|log| - 1], id))
  }

  lemma CountsOfAppend(log: seq<Audit>, calls: seq<Audit>, id: nat)
    requires |calls| <= 1
    ensures Creations(log + calls, id) == Creations(log, id) + Bit(calls != [] && IsCreation(calls[0], id))
    ensures Deletions(log + calls, id) == Deletions(log, id) + Bit(calls != [] && IsDeletion(calls[0], id))
  {
    if calls == [] {
      assert log + calls == log;
    } else {
      assert (log + calls)[..|log + calls| - 1] == log;
    }
  }

  predicate Answered(h: Handler, code: bool) {
    h.reply.Some? && h.reply.value.Created? == code
  }

  predicate BeforeCreate(pc: Pc) {
    pc == CheckClass || pc == ReadSandbox || pc == CreateSecret || pc == CreateSandbox || pc == DropSecret
  }

  /** How a handler's local flags, its reply and its logged calls belong together. */
  predicate Books(h: Handler, creations: nat, deletions: nat) {
    && creations == (if h.createdHere then 1 else 0)
    && deletions == (if h.pc == Done && h.createdHere && !h.completed then 1 else 0)
    && (h.reply.Some? <==> h.pc == Cleanup || h.pc == Done)
    && (h.completed <==> Answered(h, true))
    && (BeforeCreate(h.pc) ==> !h.createdHere)
  }

  /** The steps that neither create nor clean up leave the books alone. */
  lemma OtherStepsKeepBooks(cfg: Config, id: nat, h: Handler, s: Store, io: Io, creations: nat, deletions: nat)
    requires Books(h, creations, deletions) && h.pc != CreateSandbox && h.pc != Cleanup
    ensures
      var e := Advance(cfg, id, h, s, io);
      && Books(e.handler, creations, deletions)
      && (e.calls != [] ==> !IsCreation(e.calls[0], id) && !IsDeletion(e.calls[0], id))
  {
    match h.pc
    case CheckClass =>
    case ReadSandbox =>
    case CreateSecret =>
    case DropSecret =>
    case OwnSecret =>
    case Poll =>
    case Wait =>
    case Done =>
  }

  lemma AdvanceKeepsBooks(cfg: Config, id: nat, h: Handler, s: Store, io: Io, creations: nat, deletions: nat)
    requires Books(h, creations, deletions)
    ensures
      var e := Advance(cfg, id, h, s, io);
      Books(e.handler,
            creations + Bit(e.calls != [] && IsCreation(e.calls[0], id)),
            deletions + Bit(e.calls != [] && IsDeletion(e.calls[0], id)))
  {
    if h.pc == CreateSandbox {
      assert Advance(cfg, id, h, s, io) == AdvanceCreateSandbox(cfg, id, h, s, io);
    } else if h.pc == Cleanup {
      assert Advance(cfg, id, h, s, io) == AdvanceCleanup(cfg, id, h, s, io);
    } else {
      OtherStepsKeepBooks(cfg, id, h, s, io, creations, deletions);
    }
  }

  /** The books of a handler balance, and a request that never started has made no call. */
  predicate BooksAt(handlers: map<nat, Handler>, log: seq<Audit>, id: nat) {
    if id in handlers then Books(handlers[id], Creations(log, id), Deletions(log, id))
    else Creations(log, id) == 0 && Deletions(log, id) == 0
  }

  ghost predicate AllBooks(sys: Sys) {
    forall id :: BooksAt(sys.handlers, sys.log, id)
  }

  lemma HandlerStepKeepsBooksAt(cfg: Config, sys: Sys, actor: nat, io: Io, id: nat)
    requires AllBooks(sys) && actor in sys.handlers
    ensures
      var e := Advance(cfg, actor, sys.handlers[actor], sys.store, io);
      BooksAt(sys.handlers[actor := e.handler], sys.log + e.calls, id)
  {
    hide Books;
    var h := sys.handlers[actor];
    var e := Advance(cfg, actor, h, sys.store, io);
    assert BooksAt(sys.handlers, sys.log, actor) && BooksAt(sys.handlers, sys.log, id);
    AdvanceKeepsBooks(cfg, actor, h, sys.store, io, Creations(sys.log, actor), Deletions(sys.log, actor));
    CountsOfAppend(sys.log, e.calls, id);
  }

  lemma StepKeepsBooks(cfg: Config, sys: Sys, a: Action)
    requires AllBooks(sys)
    ensures AllBooks(Step(cfg, sys, a))
  {
    hide Advance, StepStore, BooksAt;
    var sys' := Step(cfg, sys, a);
    forall id
      ensures BooksAt(sys'.handlers, sys'.log, id)
    {
      assert BooksAt(sys.handlers, sys.log, id);
      if a.StepCreate? && a.id in sys.handlers {
        HandlerStepKeepsBooksAt(cfg, sys, a.id, a.io, id);
      } else if a.StartCreate? {
        StartKeepsBooksAt(cfg, sys, a, id);
      }
    }
  }

  lemma StartKeepsBooksAt(cfg: Config, sys: Sys, a: Action, id: nat)
    requires a.StartCreate? && BooksAt(sys.handlers, sys.log, id)
    ensures BooksAt(StepStart(cfg, sys, a).handlers, sys.log, id)
  {
    hide Authorize;
  }

  lemma {:induction false} BooksBalance(cfg: Config, start: Sys, acts: seq<Action>, n: nat)
    requires Init(start) && n <= |acts|
    ensures AllBooks(After(cfg, start, acts, n))
  {
    if n > 0 {
      BooksBalance(cfg, start, acts, n - 1);
      StepKeepsBooks(cfg, After(cfg, start, acts, n - 1), acts[n - 1]);
    }
  }

  /**
   Over every run, whatever happens between its calls: a finished create request has asked for
   exactly one deletion of its sandbox if it created one and did not answer 201, and for none
   otherwise. A request that joined an existing sandbox, or is still running, has asked for none.
   Every creation and deletion it asked for is at its own key.
   */
  lemma CleanupIffCreatedAndNotAnswered(cfg: Config, start: Sys, acts: seq<Action>, n: nat, id: nat)
    requires Init(start) && n <= |acts|
    requires id in After(cfg, start, acts, n).handlers
    ensures
      var sys := After(cfg, start, acts, n);
      var h := sys.handlers[id];
      && (h.pc == Done ==> h.reply.Some?)
      && (h.pc == Done ==> Deletions(sys.log, id) == Bit(Creations(sys.log, id) > 0 && !h.reply.value.Created?))
      && (h.pc != Done || Creations(sys.log, id) == 0 ==> Deletions(sys.log, id) == 0)
      && Creations(sys.log, id) <= 1
      && (forall i :: 0 <= i < |sys.log| && sys.log[i].actor == id
                      && (sys.log[i].verb.CreatesSandbox? || sys.log[i].verb.DeletesSandbox?)
                      ==> sys.log[i].key == SandboxKeyOf(cfg, h))
  {
    hide Step;
    BooksBalance(cfg, start, acts, n);
    CallsStayWithinGrant(cfg, start, acts, n);
    var sys := After(cfg, start, acts, n);
    assert BooksAt(sys.handlers, sys.log, id);
  }

  // ------------------------------------------------------------------ confinement

  /** Sandboxes, pods and secrets of a namespace are the same in both stores. */
  ghost predicate SameIn(s: Store, s': Store, namespace: string) {
    forall name ::
      var k := Key(namespace, name);
      && Kept(s, s', k)
      && (k in s.pods <==> k in s'.pods) && (k in s.pods ==> s'.pods[k] == s.pods[k])
      && KeptSecret(s, s', k)
  }

  lemma DeleteConfined(s: Store, k: Key, cascade: bool, namespace: string)
    requires namespace != k.namespace
    ensures SameIn(s, DeleteSandbox(s, k, cascade), namespace)
  {
  }

  /** A step of a create handler under a grant touches the granted namespace only. */
  lemma AdvanceConfined(cfg: Config, id: nat, h: Handler, s: Store, io: Io, namespace: string)
    requires namespace != h.grant.namespace
    ensures SameIn(s, Advance(cfg, id, h, s, io).store, namespace)
  {
    var e := Advance(cfg, id, h, s, io);
    if h.pc == Cleanup {
      assert e == AdvanceCleanup(cfg, id, h, s, io);
      DeleteConfined(s, SandboxKeyOf(cfg, h), io.cascade, namespace);
    } else {
      AdvanceFrame(cfg, id, h, s, io);
      forall name
        ensures Kept(s, e.store, Key(namespace, name)) && KeptSecret(s, e.store, Key(namespace, name))
      {
        AdvanceSandbox(cfg, id, h, s, io, Key(namespace, name));
        AdvanceSecrets(cfg, id, h, s, io, Key(namespace, name));
      }
    }
  }

  /** Every logged call is at its handler's own sandbox or secret, within the grant. */
  ghost predicate AllWithinGrant(cfg: Config, sys: Sys) {
    forall i :: 0 <= i < |sys.log| ==>
      var x := sys.log[i];
      x.actor in sys.handlers && WithinGrant(cfg, x.actor, sys.handlers[x.actor], x)
  }

  lemma StepKeepsWithinGrant(cfg: Config, sys: Sys, a: Action)
    requires AllWithinGrant(cfg, sys)
    ensures AllWithinGrant(cfg, Step(cfg, sys, a))
  {
    if a.StepCreate? && a.id in sys.handlers {
      var e := Advance(cfg, a.id, sys.handlers[a.id], sys.store, a.io);
      AdvanceHandler(cfg, a.id, sys.handlers[a.id], sys.store, a.io);
      forall i | 0 <= i < |sys.log + e.calls|
        ensures
          var x := (sys.log + e.calls)[i];
          var handlers' := sys.handlers[a.id := e.handler];
          x.actor in handlers' && WithinGrant(cfg, x.actor, handlers'[x.actor], x)
      {
        if i < |sys.log| {
          assert (sys.log + e.calls)[i] == sys.log[i];
        } else {
          assert (sys.log + e.calls)[i] == e.calls[0];
        }
      }
    }
  }

  /** Over every run, each call of a create handler is at its own key, in its granted namespace and class. */
  lemma {:induction false} CallsStayWithinGrant(cfg: Config, start: Sys, acts: seq<Action>, n: nat)
    requires Init(start) && n <= |acts|
    ensures AllWithinGrant(cfg, After(cfg, start, acts, n))
  {
    if n > 0 {
      CallsStayWithinGrant(cfg, start, acts, n - 1);
      StepKeepsWithinGrant(cfg, After(cfg, start, acts, n - 1), acts[n - 1]);
    }
  }

  /** The DELETE handler removes at most one sandbox, of the granted class in the granted namespace. */
  lemma DeleteRemovesOnlyGranted(cfg: Config, s: Store, token: string, name: string, io: Io, k: Key)
    requires k in s.sandboxes && k !in StepDelete(cfg, s, token, name, io).sandboxes
    ensures
      var grant := Authorize(cfg, s, token);
      grant.Some? && k == Key(grant.value.namespace, name) && s.sandboxes[k].spec.className == grant.value.className
  {
  }

  /** The action does not concern the given namespace, given who acts. */
  ghost predicate Outside(cfg: Config, sys: Sys, a: Action, namespace: string) {
    match a
    case StartCreate(_, _, _, _) => true
    case StepCreate(id, _) => id in sys.handlers ==> sys.handlers[id].grant.namespace != namespace
    case HandleDelete(token, _, _) =>
      var grant := Authorize(cfg, sys.store, token);
      grant.Some? ==> grant.value.namespace != namespace
    case PutClass(_, _) => true
    case RemoveClass(_) => true
    case _ => a.key.namespace != namespace
  }

  lemma ReconcileConfined(s: Store, k: Key, t: R.Turn, namespace: string)
    requires namespace != k.namespace
    ensures SameIn(s, R.Reconcile(s, k, t).state, namespace)
  {
    hide R.Reconcile;
    R.ReconcileFrame(s, k, t);
  }

  /** A single write to an object of another namespace. */
  lemma WriteConfined(cfg: Config, s: Store, a: Action, namespace: string)
    requires
      || a.Kubelet? || a.RemovePod? || a.PutSecret? || a.RemoveSecret? || a.PutSandbox? || a.MarkDeleting?
    requires a.key.namespace != namespace
    ensures SameIn(s, StepStore(cfg, s, a), namespace)
  {
    hide R.Reconcile, StepDelete, DeleteSandbox;
  }

  lemma StepOutside(cfg: Config, sys: Sys, a: Action, namespace: string)
    requires Outside(cfg, sys, a, namespace)
    ensures SameIn(sys.store, Step(cfg, sys, a).store, namespace)
  {
    hide Advance, R.Reconcile, DeleteSandbox, Authorize;
    match a
    case StartCreate(_, _, _, _) =>
    case StepCreate(id, io) =>
      if id in sys.handlers {
        AdvanceConfined(cfg, id, sys.handlers[id], sys.store, io, namespace);
      }
    case HandleDelete(token, name, io) =>
      var grant := Authorize(cfg, sys.store, token);
      if grant.Some? {
        DeleteConfined(sys.store, Key(grant.value.namespace, name), io.cascade, namespace);
      }
    case Reconcile(k, turn) =>
      ReconcileConfined(sys.store, k, turn, namespace);
    case RemoveSandbox(k, io) =>
      DeleteConfined(sys.store, k, io.cascade, namespace);
    case PutClass(_, _) =>
    case RemoveClass(_) =>
    case _ =>
      WriteConfined(cfg, sys.store, a, namespace);
  }

  /** The first `n` actions of the run are all outside the namespace. */
  ghost predicate AllOutside(cfg: Config, start: Sys, acts: seq<Action>, n: nat, namespace: string)
    requires n <= |acts|
  {
    n > 0 ==>
      && Outside(cfg, After(cfg, start, acts, n - 1), acts[n - 1], namespace)
      && AllOutside(cfg, start, acts, n - 1, namespace)
  }

  /** Over whole runs, requests granted elsewhere leave the objects of a namespace as they are. */
  lemma {:induction false} NamespaceIsIsolated(cfg: Config, start: Sys, acts: seq<Action>, n: nat, namespace: string)
    requires n <= |acts| && AllOutside(cfg, start, acts, n, namespace)
    ensures SameIn(start.store, After(cfg, start, acts, n).store, namespace)
  {
    if n > 0 {
      NamespaceIsIsolated(cfg, start, acts, n - 1, namespace);
      StepOutside(cfg, After(cfg, start, acts, n - 1), acts[n - 1], namespace);
      SameInTransitive(start.store, After(cfg, start, acts, n - 1).store, After(cfg, start, acts, n).store, namespace);
    }
  }

  lemma SameInTransitive(s: Store, s': Store, s'': Store, namespace: string)
    requires SameIn(s, s', namespace) && SameIn(s', s'', namespace)
    ensures SameIn(s, s'', namespace)
  {
    forall name
      ensures
        var k := Key(namespace, name);
        && Kept(s, s'', k)
        && (k in s.pods <==> k in s''.pods) && (k in s.pods ==> s''.pods[k] == s.pods[k])
        && KeptSecret(s, s'', k)
    {
      var k := Key(namespace, name);
      assert Kept(s, s', k) && Kept(s', s'', k) && KeptSecret(s, s', k) && KeptSecret(s', s'', k);
    }
  }
}
