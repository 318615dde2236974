/**
 Userdata secrets: with creates serialised per key and collection in the same step as
 deletion, every sandbox created through the API keeps its userdata secret.
 */
module UserDataSecrets {
  import opened Objects
  import opened Access
  import opened Lifecycle
  import opened Readiness
  import R = Reconciler

  /** Key and uid of every sandbox a handler has created. */
  function Made(cfg: Config, handlers: map<nat, Handler>): set<(Key, nat)> {
    set id | id in handlers && handlers[id].createdHere :: (SandboxKeyOf(cfg, handlers[id]), handlers[id].uid)
  }

  /** The sandbox at `k` was created through the API. */
  predicate ApiCreated(s: Store, made: set<(Key, nat)>, k: Key) {
    k in s.sandboxes && (k, s.sandboxes[k].uid) in made
  }

  lemma UserDataKeyInjective(k: Key, q: Key)
    requires UserDataKeyOf(k) == UserDataKeyOf(q)
    ensures k == q
  {
    assert UserDataSecretName(k.name)[..|k.name|] == k.name;
    assert UserDataSecretName(q.name)[..|q.name|] == q.name;
  }

  // ------------------------------------------------------------------ the invariant

  ghost predicate UidsOk(s: Store, made: set<(Key, nat)>) {
    && (forall k :: k in s.sandboxes ==> s.sandboxes[k].uid < s.nextUid)
    && (forall k, q :: k in s.sandboxes && q in s.sandboxes && s.sandboxes[k].uid == s.sandboxes[q].uid ==> k == q)
    && (forall p :: p in made ==> p.1 < s.nextUid)
  }

  /** A userdata secret is immutable, has its key, and its owner, if any, is the API-created sandbox of that name. */
  ghost predicate SecretOk(s: Store, made: set<(Key, nat)>, k: Key) {
    var q := UserDataKeyOf(k);
    q in s.secrets ==>
      && UserData in s.secrets[q].data && s.secrets[q].immutable
      && (s.secrets[q].owner.Some? ==> ApiCreated(s, made, k) && s.secrets[q].owner.value == s.sandboxes[k].uid)
  }

  /** An API-created sandbox refers to its userdata secret, which exists. */
  ghost predicate SandboxOk(s: Store, made: set<(Key, nat)>, k: Key) {
    ApiCreated(s, made, k) ==>
      UserDataKeyOf(k) in s.secrets && s.sandboxes[k].spec.userDataSecret == UserDataSecretName(k.name)
  }

  ghost predicate StoreOk(s: Store, made: set<(Key, nat)>) {
    UidsOk(s, made) && forall k :: SecretOk(s, made, k) && SandboxOk(s, made, k)
  }

  ghost predicate HandlerOk(cfg: Config, s: Store, made: set<(Key, nat)>, h: Handler) {
    var k := SandboxKeyOf(cfg, h);
    match h.pc
    case CheckClass => !h.createdHere
    case ReadSandbox => !h.createdHere
    case CreateSecret => !h.createdHere && !ApiCreated(s, made, k)
    case CreateSandbox => !h.createdHere && !ApiCreated(s, made, k) && UserDataKeyOf(k) in s.secrets
    case DropSecret => !h.createdHere && !ApiCreated(s, made, k)
    case OwnSecret => h.createdHere && (k, h.uid) in made && (ApiCreated(s, made, k) ==> s.sandboxes[k].uid == h.uid)
    case _ => true
  }

  ghost predicate Inv(cfg: Config, sys: Sys) {
    var made := Made(cfg, sys.handlers);
    && StoreOk(sys.store, made)
    && forall id :: id in sys.handlers ==> HandlerOk(cfg, sys.store, made, sys.handlers[id])
  }

  predicate Creating(pc: Pc) {
    pc == CreateSecret || pc == CreateSandbox || pc == DropSecret || pc == OwnSecret
  }

  /** No two requests are creating the same key at once. */
  ghost predicate Serialised(cfg: Config, sys: Sys) {
    forall i, j :: i in sys.handlers && j in sys.handlers && i != j
      && Creating(sys.handlers[i].pc) && Creating(sys.handlers[j].pc)
      ==> SandboxKeyOf(cfg, sys.handlers[i]) != SandboxKeyOf(cfg, sys.handlers[j])
  }

  /** The operator leaves secrets with userdata names alone. */
  ghost predicate Polite(a: Action) {
    Eager(a) && (a.PutSecret? || a.RemoveSecret? ==> forall k :: a.key != UserDataKeyOf(k))
  }

  /** A handler touches no userdata secret but its own before its cleanup. */
  lemma OtherKeySecret(cfg: Config, id: nat, h: Handler, s: Store, io: Io, k: Key)
    requires h.pc != Cleanup && k != SandboxKeyOf(cfg, h)
    ensures KeptSecret(s, Advance(cfg, id, h, s, io).store, UserDataKeyOf(k))
  {
    if UserDataKeyOf(k) == UserDataKeyOf(SandboxKeyOf(cfg, h)) {
      UserDataKeyInjective(k, SandboxKeyOf(cfg, h));
    }
    AdvanceSecrets(cfg, id, h, s, io, UserDataKeyOf(k));
  }

  /** A handler that is neither creating nor cleaning up leaves the store alone. */
  lemma IdleStep(cfg: Config, id: nat, h: Handler, s: Store, io: Io)
    requires !Creating(h.pc) && h.pc != Cleanup
    ensures Advance(cfg, id, h, s, io).store == s
  {
    match h.pc
    case CheckClass =>
    case ReadSandbox =>
    case Poll =>
    case Wait =>
    case Done =>
  }

  // ------------------------------------------------------------------ stores that change around a handler

  /** Deleting a sandbox together with what it owns. */
  lemma DeleteKeepsStoreOk(s: Store, made: set<(Key, nat)>, k: Key)
    requires StoreOk(s, made)
    ensures StoreOk(DeleteSandbox(s, k, true), made)
    ensures forall q :: ApiCreated(DeleteSandbox(s, k, true), made, q) ==> ApiCreated(s, made, q)
    ensures forall q :: !ApiCreated(s, made, q) && UserDataKeyOf(q) in s.secrets
              ==> UserDataKeyOf(q) in DeleteSandbox(s, k, true).secrets
  {
    var s' := DeleteSandbox(s, k, true);
    forall q
      ensures SecretOk(s', made, q) && SandboxOk(s', made, q)
      ensures !ApiCreated(s, made, q) && UserDataKeyOf(q) in s.secrets ==> UserDataKeyOf(q) in s'.secrets
    {
      assert SecretOk(s, made, q) && SandboxOk(s, made, q);
    }
  }

  /** Sandboxes keep key, uid and spec, and secrets with userdata names are as before. */
  ghost predicate Quiet(s: Store, s': Store) {
    && s'.nextUid == s.nextUid
    && s'.sandboxes.Keys == s.sandboxes.Keys
    && (forall k :: k in s.sandboxes ==>
        s'.sandboxes[k].uid == s.sandboxes[k].uid && s'.sandboxes[k].spec == s.sandboxes[k].spec)
    && (forall k :: KeptSecret(s, s', UserDataKeyOf(k)))
  }

  lemma QuietKeeps(cfg: Config, s: Store, s': Store, made: set<(Key, nat)>)
    requires StoreOk(s, made) && Quiet(s, s')
    ensures StoreOk(s', made)
    ensures forall h :: HandlerOk(cfg, s, made, h) ==> HandlerOk(cfg, s', made, h)
  {
    forall k
      ensures SecretOk(s', made, k) && SandboxOk(s', made, k)
      ensures ApiCreated(s', made, k) == ApiCreated(s, made, k)
      ensures UserDataKeyOf(k) in s'.secrets <==> UserDataKeyOf(k) in s.secrets
    {
      assert SecretOk(s, made, k) && SandboxOk(s, made, k) && KeptSecret(s, s', UserDataKeyOf(k));
    }
  }

  lemma DeleteKeepsHandlerOk(cfg: Config, s: Store, made: set<(Key, nat)>, k: Key, h: Handler)
    requires StoreOk(s, made) && HandlerOk(cfg, s, made, h)
    ensures HandlerOk(cfg, DeleteSandbox(s, k, true), made, h)
  {
    DeleteKeepsStoreOk(s, made, k);
  }

  /** A sandbox the operator creates is not taken for an API-created one. */
  lemma OperatorCreateKeeps(cfg: Config, s: Store, made: set<(Key, nat)>, k: Key, spec: SandboxSpec)
    requires StoreOk(s, made) && k !in s.sandboxes
    ensures StoreOk(AddSandbox(s, k, spec), made)
    ensures forall h :: HandlerOk(cfg, s, made, h) ==> HandlerOk(cfg, AddSandbox(s, k, spec), made, h)
  {
    var s' := AddSandbox(s, k, spec);
    forall q
      ensures SecretOk(s', made, q) && SandboxOk(s', made, q)
      ensures ApiCreated(s', made, q) == ApiCreated(s, made, q)
    {
      assert SecretOk(s, made, q) && SandboxOk(s, made, q);
    }
  }

  // ------------------------------------------------------------------ the creating steps of a handler

  lemma CreateSecretKeeps(cfg: Config, id: nat, h: Handler, s: Store, io: Io, made: set<(Key, nat)>)
    requires h.pc == CreateSecret && StoreOk(s, made) && HandlerOk(cfg, s, made, h)
    ensures
      var e := AdvanceCreateSecret(cfg, id, h, s, io);
      && StoreOk(e.store, made) && HandlerOk(cfg, e.store, made, e.handler)
      && forall g :: HandlerOk(cfg, s, made, g) ==> HandlerOk(cfg, e.store, made, g)
  {
    var e := AdvanceCreateSecret(cfg, id, h, s, io);
    var k := SandboxKeyOf(cfg, h);
    forall q
      ensures SecretOk(e.store, made, q) && SandboxOk(e.store, made, q)
    {
      assert SecretOk(s, made, q) && SandboxOk(s, made, q);
      if UserDataKeyOf(q) == UserDataKeyOf(k) {
        UserDataKeyInjective(q, k);
      }
    }
  }

  /** A sandbox that a handler creates on top of its userdata secret. */
  lemma ApiCreateKeeps(s: Store, made: set<(Key, nat)>, k: Key, spec: SandboxSpec)
    requires StoreOk(s, made) && k !in s.sandboxes && UserDataKeyOf(k) in s.secrets
    requires spec.userDataSecret == UserDataSecretName(k.name)
    ensures
      var s', made' := AddSandbox(s, k, spec), made + {(k, s.nextUid)};
      && StoreOk(s', made')
      && forall q :: q != k ==> ApiCreated(s', made', q) == ApiCreated(s, made, q)
  {
    var s', made' := AddSandbox(s, k, spec), made + {(k, s.nextUid)};
    forall q
      ensures SecretOk(s', made', q) && SandboxOk(s', made', q)
      ensures q != k ==> ApiCreated(s', made', q) == ApiCreated(s, made, q)
    {
      assert SecretOk(s, made, q) && SandboxOk(s, made, q);
    }
  }

  lemma CreateSandboxKeeps(cfg: Config, id: nat, h: Handler, s: Store, io: Io, made: set<(Key, nat)>)
    requires h.pc == CreateSandbox && StoreOk(s, made) && HandlerOk(cfg, s, made, h)
    ensures
      var e := AdvanceCreateSandbox(cfg, id, h, s, io);
      var made' := if e.handler.createdHere then made + {(SandboxKeyOf(cfg, h), e.handler.uid)} else made;
      && StoreOk(e.store, made') && HandlerOk(cfg, e.store, made', e.handler)
      && forall g :: HandlerOk(cfg, s, made, g) && (Creating(g.pc) ==> SandboxKeyOf(cfg, g) != SandboxKeyOf(cfg, h))
                     ==> HandlerOk(cfg, e.store, made', g)
  {
    var e := AdvanceCreateSandbox(cfg, id, h, s, io);
    var k := SandboxKeyOf(cfg, h);
    if e.handler.createdHere {
      ApiCreateKeeps(s, made, k, SpecOf(cfg, h));
    }
  }

  lemma DropSecretKeeps(cfg: Config, id: nat, h: Handler, s: Store, io: Io, made: set<(Key, nat)>)
    requires h.pc == DropSecret && StoreOk(s, made) && HandlerOk(cfg, s, made, h)
    ensures
      var e := AdvanceDropSecret(cfg, id, h, s, io);
      && StoreOk(e.store, made) && HandlerOk(cfg, e.store, made, e.handler)
      && forall g :: HandlerOk(cfg, s, made, g) && (Creating(g.pc) ==> SandboxKeyOf(cfg, g) != SandboxKeyOf(cfg, h))
                     ==> HandlerOk(cfg, e.store, made, g)
  {
    SecretGoneKeeps(cfg, s, made, SandboxKeyOf(cfg, h));
  }

  /** Dropping a userdata secret that no API-created sandbox needs. */
  lemma SecretGoneKeeps(cfg: Config, s: Store, made: set<(Key, nat)>, k: Key)
    requires StoreOk(s, made) && !ApiCreated(s, made, k)
    ensures
      var s' := s.(secrets := s.secrets - {UserDataKeyOf(k)});
      && StoreOk(s', made)
      && forall g :: HandlerOk(cfg, s, made, g) && (Creating(g.pc) ==> SandboxKeyOf(cfg, g) != k) ==>
        HandlerOk(cfg, s', made, g)
  {
    var s' := s.(secrets := s.secrets - {UserDataKeyOf(k)});
    forall q
      ensures SecretOk(s', made, q) && SandboxOk(s', made, q)
      ensures q != k ==> (UserDataKeyOf(q) in s'.secrets <==> UserDataKeyOf(q) in s.secrets)
    {
      assert SecretOk(s, made, q) && SandboxOk(s, made, q);
      if UserDataKeyOf(q) == UserDataKeyOf(k) {
        UserDataKeyInjective(q, k);
      }
    }
  }

  lemma AdoptKeeps(cfg: Config, s: Store, made: set<(Key, nat)>, k: Key, uid: nat, userData: string)
    requires StoreOk(s, made) && (k, uid) in made
    requires ApiCreated(s, made, k) ==> s.sandboxes[k].uid == uid
    ensures
      var s' := AdoptSecret(s, k, uid, userData, true);
      && StoreOk(s', made)
      && forall g :: HandlerOk(cfg, s, made, g) && (Creating(g.pc) ==> SandboxKeyOf(cfg, g) != k) ==>
        HandlerOk(cfg, s', made, g)
  {
    var s' := AdoptSecret(s, k, uid, userData, true);
    var key := UserDataKeyOf(k);
    if k in s.sandboxes && s.sandboxes[k].uid == uid {
      assert forall q :: q in s'.secrets <==> q in s.secrets;
      forall q
        ensures SecretOk(s', made, q) && SandboxOk(s', made, q)
      {
        assert SecretOk(s, made, q) && SandboxOk(s, made, q);
        if UserDataKeyOf(q) == key {
          UserDataKeyInjective(q, k);
        }
      }
    } else {
      SecretGoneKeeps(cfg, s, made, k);
    }
  }

  lemma OwnSecretKeeps(cfg: Config, id: nat, h: Handler, s: Store, io: Io, made: set<(Key, nat)>)
    requires h.pc == OwnSecret && io.cascade && StoreOk(s, made) && HandlerOk(cfg, s, made, h)
    ensures
      var e := AdvanceOwnSecret(cfg, id, h, s, io);
      && StoreOk(e.store, made) && HandlerOk(cfg, e.store, made, e.handler)
      && forall g :: HandlerOk(cfg, s, made, g) && (Creating(g.pc) ==> SandboxKeyOf(cfg, g) != SandboxKeyOf(cfg, h))
                     ==> HandlerOk(cfg, e.store, made, g)
  {
    AdoptKeeps(cfg, s, made, SandboxKeyOf(cfg, h), h.uid, h.request.userData);
  }

  // ------------------------------------------------------------------ one step, every run

  lemma MadeAfterUpdate(cfg: Config, handlers: map<nat, Handler>, id: nat, h': Handler)
    requires id in handlers && SandboxKeyOf(cfg, h') == SandboxKeyOf(cfg, handlers[id])
    requires handlers[id].createdHere ==> h'.createdHere && h'.uid == handlers[id].uid
    ensures
      Made(cfg, handlers[id := h'])
      == Made(cfg, handlers) + if h'.createdHere then {(SandboxKeyOf(cfg, h'), h'.uid)} else {}
  {
    var before, after := Made(cfg, handlers), Made(cfg, handlers[id := h']);
    forall p | p in after
      ensures p in before || (h'.createdHere && p == (SandboxKeyOf(cfg, h'), h'.uid))
    {
      var i :| i in handlers[id := h'] && handlers[id := h'][i].createdHere
               && p == (SandboxKeyOf(cfg, handlers[id := h'][i]), handlers[id := h'][i].uid);
    }
    forall p | p in before
      ensures p in after
    {
      var i :| i in handlers && handlers[i].createdHere && p == (SandboxKeyOf(cfg, handlers[i]), handlers[i].uid);
      assert handlers[id := h'][i].createdHere;
    }
    assert h'.createdHere ==> id in handlers[id := h'] && (SandboxKeyOf(cfg, h'), h'.uid) in after;
  }

  lemma MadeAfterStart(cfg: Config, handlers: map<nat, Handler>, id: nat, h: Handler)
    requires id !in handlers && !h.createdHere
    ensures Made(cfg, handlers[id := h]) == Made(cfg, handlers)
  {
    forall p | p in Made(cfg, handlers)
      ensures p in Made(cfg, handlers[id := h])
    {
      var i :| i in handlers && handlers[i].createdHere && p == (SandboxKeyOf(cfg, handlers[i]), handlers[i].uid);
      assert handlers[id := h][i] == handlers[i];
    }
  }

  /** What one step of a handler does to store, bookkeeping and itself. */
  lemma AdvanceKeeps(cfg: Config, id: nat, h: Handler, s: Store, io: Io, made: set<(Key, nat)>)
    requires io.cascade && StoreOk(s, made) && HandlerOk(cfg, s, made, h)
    requires h.createdHere ==> (SandboxKeyOf(cfg, h), h.uid) in made
    ensures
      var e := Advance(cfg, id, h, s, io);
      var made' := if e.handler.createdHere then made + {(SandboxKeyOf(cfg, h), e.handler.uid)} else made;
      && StoreOk(e.store, made') && HandlerOk(cfg, e.store, made', e.handler)
      && forall g :: HandlerOk(cfg, s, made, g)
                     && (Creating(h.pc) && Creating(g.pc) ==> SandboxKeyOf(cfg, g) != SandboxKeyOf(cfg, h))
                     ==> HandlerOk(cfg, e.store, made', g)
  {
    AdvanceMade(cfg, id, h, s, io);
    var e := Advance(cfg, id, h, s, io);
    var added := made + {(SandboxKeyOf(cfg, h), h.uid)};
    assert h.createdHere ==> added == made;
    match h.pc {
      case CreateSecret => CreateSecretKeeps(cfg, id, h, s, io, made);
      case CreateSandbox => CreateSandboxKeeps(cfg, id, h, s, io, made);
      case DropSecret => DropSecretKeeps(cfg, id, h, s, io, made);
      case OwnSecret => OwnSecretKeeps(cfg, id, h, s, io, made);
      case Cleanup =>
        DeleteKeepsStoreOk(s, made, SandboxKeyOf(cfg, h));
        forall g | HandlerOk(cfg, s, made, g)
          ensures HandlerOk(cfg, DeleteSandbox(s, SandboxKeyOf(cfg, h), true), made, g)
        {
          DeleteKeepsHandlerOk(cfg, s, made, SandboxKeyOf(cfg, h), g);
        }
      case _ =>
    }
  }

  /** What a handler has created it keeps, so `Made` grows by its entry at most. */
  lemma MadeAfterStep(cfg: Config, sys: Sys, id: nat, io: Io)
    requires id in sys.handlers && HandlerOk(cfg, sys.store, Made(cfg, sys.handlers), sys.handlers[id])
    ensures
      var made, h := Made(cfg, sys.handlers), sys.handlers[id];
      var e := Advance(cfg, id, h, sys.store, io);
      Made(cfg, sys.handlers[id := e.handler])
      == if e.handler.createdHere then made + {(SandboxKeyOf(cfg, h), e.handler.uid)} else made
  {
    var e := Advance(cfg, id, sys.handlers[id], sys.store, io);
    AdvanceMade(cfg, id, sys.handlers[id], sys.store, io);
    MadeAfterUpdate(cfg, sys.handlers, id, e.handler);
  }

  lemma HandlerStepKeepsInv(cfg: Config, sys: Sys, id: nat, io: Io)
    requires Inv(cfg, sys) && Serialised(cfg, sys) && io.cascade && id in sys.handlers
    ensures Inv(cfg, StepHandler(cfg, sys, id, io))
  {
    hide StoreOk, HandlerOk, Advance;
    var h := sys.handlers[id];
    var made := Made(cfg, sys.handlers);
    var e := Advance(cfg, id, h, sys.store, io);
    AdvanceKeeps(cfg, id, h, sys.store, io, made);
    MadeAfterStep(cfg, sys, id, io);
    var handlers' := sys.handlers[id := e.handler];
    forall j | j in handlers'
      ensures HandlerOk(cfg, e.store, Made(cfg, handlers'), handlers'[j])
    {
      assert j != id ==> handlers'[j] == sys.handlers[j] && HandlerOk(cfg, sys.store, made, sys.handlers[j]);
    }
  }

  lemma DeletionKeepsInv(cfg: Config, sys: Sys, k: Key)
    requires Inv(cfg, sys)
    ensures Inv(cfg, sys.(store := DeleteSandbox(sys.store, k, true)))
  {
    var made := Made(cfg, sys.handlers);
    DeleteKeepsStoreOk(sys.store, made, k);
    forall id | id in sys.handlers
      ensures HandlerOk(cfg, DeleteSandbox(sys.store, k, true), made, sys.handlers[id])
    {
      DeleteKeepsHandlerOk(cfg, sys.store, made, k, sys.handlers[id]);
    }
  }

  /** The remaining actions do not touch userdata secrets, nor uids and specs. */
  lemma OtherStepsAreQuiet(cfg: Config, sys: Sys, a: Action)
    requires Polite(a)
    requires
      || a.Reconcile? || a.Kubelet? || a.RemovePod? || a.PutSecret? || a.RemoveSecret?
      || a.PutClass? || a.RemoveClass? || a.MarkDeleting?
    ensures Quiet(sys.store, Step(cfg, sys, a).store)
  {
    hide R.Reconcile, StepDelete;
    if a.Reconcile? {
      ReconcileIsQuiet(sys.store, a.key, a.turn);
    }
  }

  lemma ReconcileIsQuiet(s: Store, k: Key, t: R.Turn)
    ensures Quiet(s, R.Reconcile(s, k, t).state)
  {
    hide R.Reconcile;
    R.ReconcileFrame(s, k, t);
  }

  lemma StepKeepsInv(cfg: Config, sys: Sys, a: Action)
    requires Inv(cfg, sys) && Serialised(cfg, sys) && Polite(a)
    ensures Inv(cfg, Step(cfg, sys, a))
  {
    hide Advance, R.Reconcile;
    var made := Made(cfg, sys.handlers);
    match a {
      case StartCreate(id, _, _, _) =>
        var grant := Authorize(cfg, sys.store, a.token);
        if id !in sys.handlers && grant.Some? {
          MadeAfterStart(cfg, sys.handlers, id, NewHandler(grant.value, a.request, a.decoded));
        }
      case StepCreate(id, io) =>
        if id in sys.handlers {
          HandlerStepKeepsInv(cfg, sys, id, io);
        }
      case HandleDelete(token, name, io) =>
        var grant := Authorize(cfg, sys.store, token);
        if grant.Some? {
          DeletionKeepsInv(cfg, sys, Key(grant.value.namespace, name));
        }
      case RemoveSandbox(k, io) =>
        DeletionKeepsInv(cfg, sys, k);
      case PutSandbox(k, spec) =>
        if k !in sys.store.sandboxes {
          OperatorCreateKeeps(cfg, sys.store, made, k, spec);
        }
      case _ =>
        OtherStepsAreQuiet(cfg, sys, a);
        QuietKeeps(cfg, sys.store, Step(cfg, sys, a).store, made);
    }
  }

  /** Every state of the run serialises creates, and every action is polite. */
  ghost predicate WellBehaved(cfg: Config, start: Sys, acts: seq<Action>, n: nat)
    requires n <= |acts|
  {
    n > 0 ==>
      && Serialised(cfg, After(cfg, start, acts, n - 1)) && Polite(acts[n - 1])
      && WellBehaved(cfg, start, acts, n - 1)
  }

  lemma {:induction false} InvHolds(cfg: Config, start: Sys, acts: seq<Action>, n: nat)
    requires n <= |acts| && Inv(cfg, start) && WellBehaved(cfg, start, acts, n)
    ensures Inv(cfg, After(cfg, start, acts, n))
  {
    if n > 0 {
      InvHolds(cfg, start, acts, n - 1);
      StepKeepsInv(cfg, After(cfg, start, acts, n - 1), acts[n - 1]);
    }
  }

  /** A start without requests and without secrets under userdata names satisfies the invariant. */
  lemma InvInitially(cfg: Config, start: Sys)
    requires Init(start)
    requires forall k :: UserDataKeyOf(k) !in start.store.secrets
    requires forall k, q :: k in start.store.sandboxes && q in start.store.sandboxes && k != q
                            ==> start.store.sandboxes[k].uid != start.store.sandboxes[q].uid
    ensures Inv(cfg, start)
  {
    assert Made(cfg, start.handlers) == {};
  }

  /**
   In every state of such a run, a sandbox created through the API has its userdata, and no
   reconciliation whose reads succeed reports it as unavailable.
   */
  lemma ApiCreatedKeepsUserData(cfg: Config, start: Sys, acts: seq<Action>, n: nat, k: Key, t: R.Turn)
    requires n <= |acts| && Inv(cfg, start) && WellBehaved(cfg, start, acts, n)
    requires
      var sys := After(cfg, start, acts, n);
      ApiCreated(sys.store, Made(cfg, sys.handlers), k)
    ensures
      var s := After(cfg, start, acts, n).store;
      && UserDataKeyOf(k) in s.secrets && UserData in s.secrets[UserDataKeyOf(k)].data
      && var inputs := R.ReadInputs(R.At(s, k), k, t);
         R.GetSecret !in t.faults && inputs.Lacking? ==> inputs.reason != UserDataUnavailable
  {
    InvHolds(cfg, start, acts, n);
    var sys := After(cfg, start, acts, n);
    var made := Made(cfg, sys.handlers);
    assert SecretOk(sys.store, made, k) && SandboxOk(sys.store, made, k);
  }
}
