/**
 Whose userdata a sandbox boots with, under the hypotheses of module UserDataSecrets: exactly
 when it is that of the request which created the sandbox, and that it always is when the two
 calls whose errors the create handler ignores (dropping the secret after a failed create, and
 making the sandbox its owner) succeed.
 */
module UserDataIdentity {
  import opened Objects
  import opened Access
  import opened Lifecycle
  import opened Readiness
  import opened Lifetimes
  import opened UserDataSecrets

  function DataOf(h: Handler): map<DataKey, string> {
    map[UserData := h.request.userData]
  }

  /** The sandbox that handler `h` created is still there. */
  predicate Lives(cfg: Config, s: Store, h: Handler) {
    var k := SandboxKeyOf(cfg, h);
    h.createdHere && k in s.sandboxes && s.sandboxes[k].uid == h.uid
  }

  /** The secret that handler `h` works with, or that its live sandbox uses, holds `data`. */
  ghost predicate DataOk(cfg: Config, s: Store, h: Handler, data: map<DataKey, string>) {
    var q := UserDataKeyOf(SandboxKeyOf(cfg, h));
    && (h.pc == CreateSandbox || Lives(cfg, s, h) ==> q in s.secrets)
    && (q in s.secrets && (h.pc == CreateSandbox || h.pc == OwnSecret || Lives(cfg, s, h)) ==>
        s.secrets[q].data == data)
  }

  lemma LiveIsApiCreated(cfg: Config, s: Store, handlers: map<nat, Handler>, id: nat)
    requires id in handlers && Lives(cfg, s, handlers[id])
    ensures ApiCreated(s, Made(cfg, handlers), SandboxKeyOf(cfg, handlers[id]))
  {
  }

  // ------------------------------------------------------------------ one handler, one step

  lemma OtherKeyKeeps(cfg: Config, s: Store, id: nat, h: Handler, io: Io, g: Handler, data: map<DataKey, string>)
    requires h.pc != Cleanup
    requires DataOk(cfg, s, g, data) && SandboxKeyOf(cfg, g) != SandboxKeyOf(cfg, h)
    ensures DataOk(cfg, Advance(cfg, id, h, s, io).store, g, data)
  {
    var k := SandboxKeyOf(cfg, g);
    OtherKeySecret(cfg, id, h, s, io, k);
    AdvanceFrame(cfg, id, h, s, io);
    AdvanceSandbox(cfg, id, h, s, io, k);
  }

  /** A sandbox that handler `id` creates is not one that handler `j` has created. */
  lemma NoRebirth(cfg: Config, sys: Sys, id: nat, io: Io, j: nat)
    requires Inv(cfg, sys) && id in sys.handlers && j in sys.handlers && j != id && sys.handlers[id].pc != Cleanup
    requires !Lives(cfg, sys.store, sys.handlers[j])
    ensures !Lives(cfg, Advance(cfg, id, sys.handlers[id], sys.store, io).store, sys.handlers[j])
  {
    var g := sys.handlers[j];
    var k := SandboxKeyOf(cfg, g);
    AdvanceFrame(cfg, id, sys.handlers[id], sys.store, io);
    AdvanceSandbox(cfg, id, sys.handlers[id], sys.store, io, k);
    if g.createdHere {
      assert (k, g.uid) in Made(cfg, sys.handlers);
    }
  }

  /** Making a live sandbox the owner of its secret keeps the data. */
  lemma AdoptKeepsData(cfg: Config, s: Store, made: set<(Key, nat)>, k: Key, uid: nat, userData: string)
    requires StoreOk(s, made) && k in s.sandboxes && s.sandboxes[k].uid == uid
    ensures
      var q, s' := UserDataKeyOf(k), AdoptSecret(s, k, uid, userData, true);
      (q in s'.secrets <==> q in s.secrets) && (q in s.secrets ==> s'.secrets[q].data == s.secrets[q].data)
  {
    assert SecretOk(s, made, k);
  }

  lemma SameKeyKeeps(cfg: Config, sys: Sys, id: nat, io: Io, j: nat, data: map<DataKey, string>)
    requires Inv(cfg, sys) && Serialised(cfg, sys) && io.cascade
    requires id in sys.handlers && j in sys.handlers && j != id && sys.handlers[id].pc != Cleanup
    requires SandboxKeyOf(cfg, sys.handlers[j]) == SandboxKeyOf(cfg, sys.handlers[id])
    requires DataOk(cfg, sys.store, sys.handlers[j], data)
    ensures DataOk(cfg, Advance(cfg, id, sys.handlers[id], sys.store, io).store, sys.handlers[j], data)
  {
    var s, h, g := sys.store, sys.handlers[id], sys.handlers[j];
    if !Creating(h.pc) {
      IdleStep(cfg, id, h, s, io);
    } else if Lives(cfg, s, g) {
      LiveIsApiCreated(cfg, s, sys.handlers, j);
      assert HandlerOk(cfg, s, Made(cfg, sys.handlers), h);
      assert Advance(cfg, id, h, s, io) == AdvanceOwnSecret(cfg, id, h, s, io);
      AdoptKeepsData(cfg, s, Made(cfg, sys.handlers), SandboxKeyOf(cfg, h), h.uid, h.request.userData);
    } else {
      NoRebirth(cfg, sys, id, io, j);
    }
  }

  lemma OwnStepKeeps(cfg: Config, sys: Sys, id: nat, io: Io, data: map<DataKey, string>)
    requires Inv(cfg, sys) && io.cascade && id in sys.handlers
    requires 3 <= Stage(sys.handlers[id].pc) && sys.handlers[id].pc != Cleanup
    requires DataOk(cfg, sys.store, sys.handlers[id], data)
    ensures
      var e := Advance(cfg, id, sys.handlers[id], sys.store, io);
      DataOk(cfg, e.store, e.handler, data)
  {
    var s, h := sys.store, sys.handlers[id];
    var made := Made(cfg, sys.handlers);
    var e := Advance(cfg, id, h, s, io);
    AdvanceStage(cfg, id, h, s, io);
    AdvanceMade(cfg, id, h, s, io);
    assert HandlerOk(cfg, s, made, h);
    if h.pc == CreateSandbox {
      assert e == AdvanceCreateSandbox(cfg, id, h, s, io);
    } else if h.pc == DropSecret {
      assert e == AdvanceDropSecret(cfg, id, h, s, io);
    } else if h.pc == OwnSecret {
      assert e == AdvanceOwnSecret(cfg, id, h, s, io);
      if Lives(cfg, s, h) {
        AdoptKeepsData(cfg, s, made, SandboxKeyOf(cfg, h), h.uid, h.request.userData);
      }
    } else {
      IdleStep(cfg, id, h, s, io);
    }
  }

  /** Deleting a sandbox with what it owns leaves the userdata of all others alone. */
  lemma DeletionKeepsOne(cfg: Config, sys: Sys, k: Key, j: nat, data: map<DataKey, string>)
    requires Inv(cfg, sys) && j in sys.handlers && DataOk(cfg, sys.store, sys.handlers[j], data)
    ensures DataOk(cfg, DeleteSandbox(sys.store, k, true), sys.handlers[j], data)
  {
    var s, s', h := sys.store, DeleteSandbox(sys.store, k, true), sys.handlers[j];
    var made := Made(cfg, sys.handlers);
    assert HandlerOk(cfg, s, made, h) && SecretOk(s, made, SandboxKeyOf(cfg, h));
    if Lives(cfg, s', h) {
      LiveIsApiCreated(cfg, s, sys.handlers, j);
    }
  }

  /** What a handler works with survives a step of any handler. */
  lemma HandlerStepKeepsOne(cfg: Config, sys: Sys, id: nat, io: Io, j: nat, data: map<DataKey, string>)
    requires Inv(cfg, sys) && Serialised(cfg, sys) && io.cascade && id in sys.handlers && j in sys.handlers
    requires DataOk(cfg, sys.store, sys.handlers[j], data) && (id == j ==> 3 <= Stage(sys.handlers[j].pc))
    ensures
      var sys' := StepHandler(cfg, sys, id, io);
      j in sys'.handlers && DataOk(cfg, sys'.store, sys'.handlers[j], data)
  {
    var h := sys.handlers[id];
    if h.pc == Cleanup {
      assert Advance(cfg, id, h, sys.store, io) == AdvanceCleanup(cfg, id, h, sys.store, io);
      DeletionKeepsOne(cfg, sys, SandboxKeyOf(cfg, h), j, data);
    } else if j == id {
      OwnStepKeeps(cfg, sys, id, io, data);
    } else if SandboxKeyOf(cfg, sys.handlers[j]) == SandboxKeyOf(cfg, h) {
      SameKeyKeeps(cfg, sys, id, io, j, data);
    } else {
      OtherKeyKeeps(cfg, sys.store, id, h, io, sys.handlers[j], data);
    }
  }

  lemma OperatorCreateKeepsOne(cfg: Config, sys: Sys, k: Key, spec: SandboxSpec, j: nat, data: map<DataKey, string>)
    requires Inv(cfg, sys) && k !in sys.store.sandboxes
    requires j in sys.handlers && DataOk(cfg, sys.store, sys.handlers[j], data)
    ensures DataOk(cfg, AddSandbox(sys.store, k, spec), sys.handlers[j], data)
  {
    var h := sys.handlers[j];
    if h.createdHere {
      assert (SandboxKeyOf(cfg, h), h.uid) in Made(cfg, sys.handlers);
    }
  }

  lemma QuietKeepsOne(cfg: Config, s: Store, s': Store, h: Handler, data: map<DataKey, string>)
    requires Quiet(s, s') && DataOk(cfg, s, h, data)
    ensures DataOk(cfg, s', h, data)
  {
    assert KeptSecret(s, s', UserDataKeyOf(SandboxKeyOf(cfg, h)));
  }

  lemma StepKeepsOne(cfg: Config, sys: Sys, a: Action, j: nat, data: map<DataKey, string>)
    requires Inv(cfg, sys) && Serialised(cfg, sys) && Polite(a) && j in sys.handlers
    requires DataOk(cfg, sys.store, sys.handlers[j], data)
    requires a.StepCreate? && a.id == j ==> 3 <= Stage(sys.handlers[j].pc)
    ensures
      var sys' := Step(cfg, sys, a);
      j in sys'.handlers && DataOk(cfg, sys'.store, sys'.handlers[j], data)
  {
    hide Advance, StoreOk;
    match a {
      case StartCreate(_, _, _, _) =>
      case StepCreate(id, io) =>
        if id in sys.handlers {
          HandlerStepKeepsOne(cfg, sys, id, io, j, data);
        }
      case HandleDelete(token, name, io) =>
        var grant := Authorize(cfg, sys.store, token);
        if grant.Some? {
          DeletionKeepsOne(cfg, sys, Key(grant.value.namespace, name), j, data);
        }
      case RemoveSandbox(k, io) =>
        DeletionKeepsOne(cfg, sys, k, j, data);
      case PutSandbox(k, spec) =>
        if k !in sys.store.sandboxes {
          OperatorCreateKeepsOne(cfg, sys, k, spec, j, data);
        }
      case _ =>
        OtherStepsAreQuiet(cfg, sys, a);
        QuietKeepsOne(cfg, sys.store, Step(cfg, sys, a).store, sys.handlers[j], data);
    }
  }

  // ------------------------------------------------------------------ exactly when the userdata is the request's

  /** The handler is past its secret, which holds `data` as long as it matters. */
  ghost predicate Tracked(cfg: Config, sys: Sys, id: nat, data: map<DataKey, string>) {
    id in sys.handlers && 3 <= Stage(sys.handlers[id].pc) && DataOk(cfg, sys.store, sys.handlers[id], data)
  }

  lemma TrackedStep(cfg: Config, sys: Sys, a: Action, id: nat, data: map<DataKey, string>)
    requires Inv(cfg, sys) && Serialised(cfg, sys) && Polite(a) && Tracked(cfg, sys, id, data)
    ensures Tracked(cfg, Step(cfg, sys, a), id, data)
    ensures Step(cfg, sys, a).handlers[id].request == sys.handlers[id].request
    ensures SandboxKeyOf(cfg, Step(cfg, sys, a).handlers[id]) == SandboxKeyOf(cfg, sys.handlers[id])
  {
    hide StepStore;
    StepKeepsOne(cfg, sys, a, id, data);
    if a.StepCreate? && a.id == id {
      AdvanceStage(cfg, id, sys.handlers[id], sys.store, a.io);
      AdvanceHandler(cfg, id, sys.handlers[id], sys.store, a.io);
    }
  }

  lemma {:induction false} TrackedUntil(
    cfg: Config, start: Sys, acts: seq<Action>, m: nat, n: nat, id: nat, data: map<DataKey, string>)
    requires m <= n <= |acts| && Inv(cfg, start) && WellBehaved(cfg, start, acts, n)
    requires Tracked(cfg, After(cfg, start, acts, m), id, data)
    ensures Tracked(cfg, After(cfg, start, acts, n), id, data)
    ensures
      var h, h' := After(cfg, start, acts, m).handlers[id], After(cfg, start, acts, n).handlers[id];
      h'.request == h.request && SandboxKeyOf(cfg, h') == SandboxKeyOf(cfg, h)
  {
    if m < n {
      TrackedUntil(cfg, start, acts, m, n - 1, id, data);
      InvHolds(cfg, start, acts, n - 1);
      TrackedStep(cfg, After(cfg, start, acts, n - 1), acts[n - 1], id, data);
    }
  }

  /** Action `i` is the step in which handler `id` creates its secret, or finds one of that name. */
  ghost predicate MakesSecret(cfg: Config, start: Sys, acts: seq<Action>, i: nat, id: nat)
    requires i < |acts|
  {
    var sys := After(cfg, start, acts, i);
    acts[i].StepCreate? && acts[i].id == id && !acts[i].io.fault && id in sys.handlers &&
      sys.handlers[id].pc == CreateSecret
  }

  /** No secret of that name is stored, or one with the request's own data. */
  predicate FreeOrEqual(cfg: Config, s: Store, h: Handler) {
    var q := UserDataKeyOf(SandboxKeyOf(cfg, h));
    q in s.secrets ==> s.secrets[q].data == DataOf(h)
  }

  lemma SecretStep(cfg: Config, sys: Sys, id: nat, io: Io) returns (data: map<DataKey, string>)
    requires Inv(cfg, sys) && id in sys.handlers && sys.handlers[id].pc == CreateSecret && !io.fault
    ensures
      var sys', h := Step(cfg, sys, StepCreate(id, io)), sys.handlers[id];
      && Tracked(cfg, sys', id, data) && DataOf(sys'.handlers[id]) == DataOf(h)
    ensures data == DataOf(sys.handlers[id]) <==> FreeOrEqual(cfg, sys.store, sys.handlers[id])
  {
    var h := sys.handlers[id];
    var q := UserDataKeyOf(SandboxKeyOf(cfg, h));
    var e := Advance(cfg, id, h, sys.store, io);
    assert HandlerOk(cfg, sys.store, Made(cfg, sys.handlers), h);
    assert e == AdvanceCreateSecret(cfg, id, h, sys.store, io);
    data := e.store.secrets[q].data;
  }

  lemma SecretAt(cfg: Config, start: Sys, acts: seq<Action>, i: nat, id: nat) returns (data: map<DataKey, string>)
    requires i < |acts| && Inv(cfg, start) && WellBehaved(cfg, start, acts, i) && MakesSecret(cfg, start, acts, i, id)
    ensures Tracked(cfg, After(cfg, start, acts, i + 1), id, data)
    ensures data == DataOf(After(cfg, start, acts, i + 1).handlers[id])
            <==> FreeOrEqual(cfg, After(cfg, start, acts, i).store, After(cfg, start, acts, i).handlers[id])
  {
    InvHolds(cfg, start, acts, i);
    data := SecretStep(cfg, After(cfg, start, acts, i), id, acts[i].io);
  }

  lemma SecretUntil(cfg: Config, start: Sys, acts: seq<Action>, i: nat, n: nat, id: nat)
    returns (data: map<DataKey, string>)
    requires i < n <= |acts| && Inv(cfg, start) && WellBehaved(cfg, start, acts, n) &&
      MakesSecret(cfg, start, acts, i, id)
    ensures Tracked(cfg, After(cfg, start, acts, n), id, data)
    ensures data == DataOf(After(cfg, start, acts, n).handlers[id])
            <==> FreeOrEqual(cfg, After(cfg, start, acts, i).store, After(cfg, start, acts, i).handlers[id])
  {
    hide Step;
    EarlierIsWellBehaved(cfg, start, acts, i, n);
    data := SecretAt(cfg, start, acts, i, id);
    TrackedUntil(cfg, start, acts, i + 1, n, id, data);
  }

  /** The live sandbox of handler `id` refers to a stored secret. */
  lemma LiveRefersToSecret(cfg: Config, sys: Sys, id: nat)
    requires Inv(cfg, sys) && id in sys.handlers && Lives(cfg, sys.store, sys.handlers[id])
    ensures
      var k := SandboxKeyOf(cfg, sys.handlers[id]);
      UserDataKeyOf(k) in sys.store.secrets &&
        UserDataKeyOf(k) == Key(k.namespace, sys.store.sandboxes[k].spec.userDataSecret)
  {
    LiveIsApiCreated(cfg, sys.store, sys.handlers, id);
    assert SandboxOk(sys.store, Made(cfg, sys.handlers), SandboxKeyOf(cfg, sys.handlers[id]));
  }

  /**
   A sandbox that a request created refers, as long as it lives, to a secret. That secret holds
   the request's userdata exactly when, at the time the request came to create it, no secret of
   that name was stored or one with the same data.
   */
  lemma BootsWithOwnUserDataIff(cfg: Config, start: Sys, acts: seq<Action>, i: nat, n: nat, id: nat)
    requires i < n <= |acts| && Inv(cfg, start) && WellBehaved(cfg, start, acts, n) &&
      MakesSecret(cfg, start, acts, i, id)
    requires
      var sys := After(cfg, start, acts, n);
      id in sys.handlers && Lives(cfg, sys.store, sys.handlers[id])
    ensures
      var sys, h := After(cfg, start, acts, n), After(cfg, start, acts, n).handlers[id];
      var k := SandboxKeyOf(cfg, h);
      var q := Key(k.namespace, sys.store.sandboxes[k].spec.userDataSecret);
      && q in sys.store.secrets
      && (sys.store.secrets[q].data == DataOf(h)
          <==> FreeOrEqual(cfg, After(cfg, start, acts, i).store, After(cfg, start, acts, i).handlers[id]))
  {
    var data := SecretUntil(cfg, start, acts, i, n, id);
    InvHolds(cfg, start, acts, n);
    LiveRefersToSecret(cfg, After(cfg, start, acts, n), id);
  }

  lemma {:induction false} EarlierIsWellBehaved(cfg: Config, start: Sys, acts: seq<Action>, i: nat, n: nat)
    requires i <= n <= |acts| && WellBehaved(cfg, start, acts, n)
    ensures WellBehaved(cfg, start, acts, i)
  {
    if i < n {
      EarlierIsWellBehaved(cfg, start, acts, i, n - 1);
    }
  }

  /** Action `i` is the step in which handler `id` joins an existing sandbox. */
  ghost predicate Joins(cfg: Config, start: Sys, acts: seq<Action>, i: nat, id: nat)
    requires i < |acts|
  {
    var sys := After(cfg, start, acts, i);
    && acts[i].StepCreate? && acts[i].id == id && id in sys.handlers && sys.handlers[id].pc == ReadSandbox
    && AdvanceReadSandbox(cfg, sys.handlers[id], sys.store, acts[i].io).pc == Poll
  }

  /** The creator of an API-created sandbox, and the data it lives on. */
  lemma CreatorTracked(cfg: Config, sys: Sys, k: Key) returns (id: nat)
    requires Inv(cfg, sys) && ApiCreated(sys.store, Made(cfg, sys.handlers), k)
    ensures UserDataKeyOf(k) in sys.store.secrets
    ensures Tracked(cfg, sys, id, sys.store.secrets[UserDataKeyOf(k)].data)
    ensures SandboxKeyOf(cfg, sys.handlers[id]) == k && Owns(sys.handlers[id], sys.store.sandboxes[k].uid)
  {
    var made := Made(cfg, sys.handlers);
    assert SandboxOk(sys.store, made, k);
    id :| id in sys.handlers && sys.handlers[id].createdHere
          && (k, sys.store.sandboxes[k].uid) == (SandboxKeyOf(cfg, sys.handlers[id]), sys.handlers[id].uid);
    assert HandlerOk(cfg, sys.store, made, sys.handlers[id]);
  }

  /** An API-created sandbox keeps the data of its secret as long as it is in place. */
  lemma UserDataStays(cfg: Config, start: Sys, acts: seq<Action>, i: nat, n: nat, k: Key)
    requires i <= n <= |acts| && Inv(cfg, start) && WellBehaved(cfg, start, acts, n)
    requires ApiCreated(After(cfg, start, acts, i).store, Made(cfg, After(cfg, start, acts, i).handlers), k)
    requires Occupied(cfg, start, acts, i, n, k)
    ensures
      var q, before, after := UserDataKeyOf(k), After(cfg, start, acts, i).store, After(cfg, start, acts, n).store;
      q in before.secrets && q in after.secrets && after.secrets[q].data == before.secrets[q].data
  {
    hide Step, StoreOk, HandlerOk, Occupied;
    EarlierIsWellBehaved(cfg, start, acts, i, n);
    InvHolds(cfg, start, acts, i);
    var id := CreatorTracked(cfg, After(cfg, start, acts, i), k);
    TrackedUntil(cfg, start, acts, i, n, id, After(cfg, start, acts, i).store.secrets[UserDataKeyOf(k)].data);
    OccupantStays(cfg, start, acts, i, n, k);
    OwnsStays(cfg, start, acts, i, n, id, After(cfg, start, acts, i).store.sandboxes[k].uid);
  }

  /**
   A request that joins a sandbox is served on the userdata the sandbox has. As long as the sandbox
   is in place that is the request's own exactly when it was when the request joined: the identity
   check does not look at userdata.
   */
  lemma JoinsOwnUserDataIff(cfg: Config, start: Sys, acts: seq<Action>, i: nat, n: nat, id: nat)
    requires i < n <= |acts| && Inv(cfg, start) && WellBehaved(cfg, start, acts, n) && Joins(cfg, start, acts, i, id)
    requires
      var sys, k := After(cfg, start, acts, i), SandboxKeyOf(cfg, After(cfg, start, acts, i).handlers[id]);
      ApiCreated(sys.store, Made(cfg, sys.handlers), k) && Occupied(cfg, start, acts, i, n, k)
    ensures
      var sys, h := After(cfg, start, acts, n), After(cfg, start, acts, i).handlers[id];
      var q := UserDataKeyOf(SandboxKeyOf(cfg, h));
      && id in sys.handlers && sys.handlers[id].request == h.request
      && SandboxKeyOf(cfg, sys.handlers[id]) == SandboxKeyOf(cfg, h) && q in sys.store.secrets
      && (sys.store.secrets[q].data == DataOf(h) <==> FreeOrEqual(cfg, After(cfg, start, acts, i).store, h))
  {
    hide Step, Inv, Occupied, ApiCreated;
    HandlerPersists(cfg, start, acts, i, n, id);
    UserDataStays(cfg, start, acts, i, n, SandboxKeyOf(cfg, After(cfg, start, acts, i).handlers[id]));
  }

  // ------------------------------------------------------------------ clean runs leave no secret over

  /** Points at which a handler answers for the secret it has created or found. */
  predicate Holding(pc: Pc) {
    pc == CreateSandbox || pc == DropSecret || pc == OwnSecret
  }

  ghost predicate Held(cfg: Config, handlers: map<nat, Handler>, k: Key) {
    exists id :: id in handlers && Holding(handlers[id].pc) && SandboxKeyOf(cfg, handlers[id]) == k
  }

  /** A userdata secret without owner is in the hands of some handler. */
  ghost predicate HeldOk(cfg: Config, s: Store, handlers: map<nat, Handler>, k: Key) {
    UserDataKeyOf(k) in s.secrets && s.secrets[UserDataKeyOf(k)].owner.None? ==> Held(cfg, handlers, k)
  }

  ghost predicate AllHeld(cfg: Config, sys: Sys) {
    forall k :: HeldOk(cfg, sys.store, sys.handlers, k)
  }

  ghost predicate AllDataOk(cfg: Config, sys: Sys) {
    forall id :: id in sys.handlers ==> DataOk(cfg, sys.store, sys.handlers[id], DataOf(sys.handlers[id]))
  }

  ghost predicate DataInv(cfg: Config, sys: Sys) {
    Inv(cfg, sys) && AllDataOk(cfg, sys) && AllHeld(cfg, sys)
  }

  /** The calls whose errors the handler ignores do not fail. */
  predicate Clean(sys: Sys, a: Action) {
    a.StepCreate? && a.id in sys.handlers && sys.handlers[a.id].pc in {DropSecret, OwnSecret} ==> !a.io.fault
  }

  /** At its CreateSecret step a handler finds no secret left over. */
  lemma NoSecretLeftOver(cfg: Config, sys: Sys, id: nat)
    requires DataInv(cfg, sys) && Serialised(cfg, sys)
    requires id in sys.handlers && sys.handlers[id].pc == CreateSecret
    ensures UserDataKeyOf(SandboxKeyOf(cfg, sys.handlers[id])) !in sys.store.secrets
  {
    var k := SandboxKeyOf(cfg, sys.handlers[id]);
    var made := Made(cfg, sys.handlers);
    assert HandlerOk(cfg, sys.store, made, sys.handlers[id]);
    assert SecretOk(sys.store, made, k) && HeldOk(cfg, sys.store, sys.handlers, k);
  }

  /** A handler that has not come to its secret has nothing to answer for. */
  lemma EarlyIsDataOk(cfg: Config, s: Store, h: Handler, data: map<DataKey, string>)
    requires !h.createdHere && h.pc != CreateSandbox && h.pc != OwnSecret
    ensures DataOk(cfg, s, h, data)
  {
  }

  lemma EarlyStep(cfg: Config, sys: Sys, id: nat, io: Io)
    requires DataInv(cfg, sys) && Serialised(cfg, sys) && id in sys.handlers && Stage(sys.handlers[id].pc) < 3
    ensures
      var e := Advance(cfg, id, sys.handlers[id], sys.store, io);
      DataOk(cfg, e.store, e.handler, DataOf(e.handler))
  {
    var h := sys.handlers[id];
    var e := Advance(cfg, id, h, sys.store, io);
    assert HandlerOk(cfg, sys.store, Made(cfg, sys.handlers), h);
    AdvanceHandler(cfg, id, h, sys.store, io);
    if h.pc == CreateSecret {
      NoSecretLeftOver(cfg, sys, id);
      assert e == AdvanceCreateSecret(cfg, id, h, sys.store, io);
    } else {
      AdvanceMade(cfg, id, h, sys.store, io);
      PcsOfStep(cfg, id, h, sys.store, io);
      EarlyIsDataOk(cfg, e.store, e.handler, DataOf(e.handler));
    }
  }

  lemma StepKeepsAllDataOk(cfg: Config, sys: Sys, a: Action)
    requires DataInv(cfg, sys) && Serialised(cfg, sys) && Polite(a)
    ensures AllDataOk(cfg, Step(cfg, sys, a))
  {
    var sys' := Step(cfg, sys, a);
    forall j | j in sys'.handlers
      ensures DataOk(cfg, sys'.store, sys'.handlers[j], DataOf(sys'.handlers[j]))
    {
      if j !in sys.handlers {
        EarlyIsDataOk(cfg, sys'.store, sys'.handlers[j], DataOf(sys'.handlers[j]));
      } else if a.StepCreate? && a.id == j && Stage(sys.handlers[j].pc) < 3 {
        EarlyStep(cfg, sys, j, a.io);
      } else {
        HandlerKeepsRequest(cfg, sys, a, j);
        StepKeepsOne(cfg, sys, a, j, DataOf(sys.handlers[j]));
      }
    }
  }

  lemma HandlerKeepsRequest(cfg: Config, sys: Sys, a: Action, id: nat)
    requires id in sys.handlers
    ensures id in Step(cfg, sys, a).handlers && DataOf(Step(cfg, sys, a).handlers[id]) == DataOf(sys.handlers[id])
  {
    if a.StepCreate? && a.id == id {
      AdvanceHandler(cfg, id, sys.handlers[id], sys.store, a.io);
    }
  }

  /** What the stepping handler does to its own secret, by the step it is at. */
  lemma OwnKeySecret(cfg: Config, sys: Sys, id: nat, io: Io)
    requires DataInv(cfg, sys) && Serialised(cfg, sys) && id in sys.handlers && io.cascade
    requires Clean(sys, StepCreate(id, io)) && sys.handlers[id].pc != Cleanup
    ensures
      var h := sys.handlers[id];
      var q := UserDataKeyOf(SandboxKeyOf(cfg, h));
      var e := Advance(cfg, id, h, sys.store, io);
      && (q in e.store.secrets && e.store.secrets[q].owner.None? ==>
          Holding(e.handler.pc) || KeptSecret(sys.store, e.store, q))
      && (Holding(h.pc) && q in e.store.secrets && e.store.secrets[q].owner.None? ==> Holding(e.handler.pc))
  {
    var h := sys.handlers[id];
    var e := Advance(cfg, id, h, sys.store, io);
    assert HandlerOk(cfg, sys.store, Made(cfg, sys.handlers), h) && DataOk(cfg, sys.store, h, DataOf(h));
    match h.pc {
      case CreateSecret =>
        assert e == AdvanceCreateSecret(cfg, id, h, sys.store, io);
      case CreateSandbox =>
        assert e == AdvanceCreateSandbox(cfg, id, h, sys.store, io);
      case DropSecret =>
        assert e == AdvanceDropSecret(cfg, id, h, sys.store, io);
      case OwnSecret =>
        assert e == AdvanceOwnSecret(cfg, id, h, sys.store, io);
      case _ =>
        IdleStep(cfg, id, h, sys.store, io);
    }
  }

  /** Which steps lead to the points that matter for secrets. */
  lemma PcsOfStep(cfg: Config, id: nat, h: Handler, s: Store, io: Io)
    ensures
      var pc' := Advance(cfg, id, h, s, io).handler.pc;
      && (pc' == CreateSandbox ==> h.pc == CreateSecret)
      && (pc' == OwnSecret || pc' == DropSecret ==> h.pc == CreateSandbox)
  {
    match h.pc
    case CheckClass =>
    case ReadSandbox =>
    case CreateSecret =>
    case CreateSandbox =>
    case DropSecret =>
    case OwnSecret =>
    case Poll =>
    case Wait =>
    case Cleanup =>
    case Done =>
  }

  lemma StillHeld(cfg: Config, handlers: map<nat, Handler>, id: nat, h': Handler, k: Key)
    requires id in handlers && SandboxKeyOf(cfg, h') == SandboxKeyOf(cfg, handlers[id])
    requires SandboxKeyOf(cfg, h') == k && Holding(handlers[id].pc) ==> Holding(h'.pc)
    requires Held(cfg, handlers, k)
    ensures Held(cfg, handlers[id := h'], k)
  {
    var j :| j in handlers && Holding(handlers[j].pc) && SandboxKeyOf(cfg, handlers[j]) == k;
    assert j in handlers[id := h'];
  }

  /** Every secret without owner stays in the hands of a handler. */
  lemma HeldAfterStep(cfg: Config, sys: Sys, id: nat, io: Io, k: Key)
    requires DataInv(cfg, sys) && Serialised(cfg, sys) && io.cascade && Clean(sys, StepCreate(id, io))
    requires id in sys.handlers && sys.handlers[id].pc != Cleanup
    ensures
      var e := Advance(cfg, id, sys.handlers[id], sys.store, io);
      HeldOk(cfg, e.store, sys.handlers[id := e.handler], k)
  {
    var h := sys.handlers[id];
    var e := Advance(cfg, id, h, sys.store, io);
    var q := UserDataKeyOf(k);
    AdvanceMade(cfg, id, h, sys.store, io);
    if q in e.store.secrets && e.store.secrets[q].owner.None? {
      assert HeldOk(cfg, sys.store, sys.handlers, k);
      if k != SandboxKeyOf(cfg, h) {
        OtherKeySecret(cfg, id, h, sys.store, io, k);
        StillHeld(cfg, sys.handlers, id, e.handler, k);
      } else {
        OwnKeySecret(cfg, sys, id, io);
        if Holding(e.handler.pc) {
          assert sys.handlers[id := e.handler][id] == e.handler;
        } else {
          StillHeld(cfg, sys.handlers, id, e.handler, k);
        }
      }
    }
  }

  lemma DeletionKeepsHeld(cfg: Config, sys: Sys, k: Key)
    requires DataInv(cfg, sys)
    ensures AllHeld(cfg, sys.(store := DeleteSandbox(sys.store, k, true)))
  {
    forall q
      ensures HeldOk(cfg, DeleteSandbox(sys.store, k, true), sys.handlers, q)
    {
      assert HeldOk(cfg, sys.store, sys.handlers, q);
    }
  }

  /** A handler that ends, or one that starts, holds nothing. */
  lemma HeldWithHandler(cfg: Config, sys: Sys, id: nat, h': Handler)
    requires AllHeld(cfg, sys) && (id in sys.handlers ==> !Holding(sys.handlers[id].pc))
    ensures AllHeld(cfg, sys.(handlers := sys.handlers[id := h']))
  {
    var handlers' := sys.handlers[id := h'];
    forall k
      ensures HeldOk(cfg, sys.store, handlers', k)
    {
      assert HeldOk(cfg, sys.store, sys.handlers, k);
      if UserDataKeyOf(k) in sys.store.secrets && sys.store.secrets[UserDataKeyOf(k)].owner.None? {
        var j :| j in sys.handlers && Holding(sys.handlers[j].pc) && SandboxKeyOf(cfg, sys.handlers[j]) == k;
        assert handlers'[j] == sys.handlers[j];
      }
    }
  }

  lemma HandlerStepKeepsHeld(cfg: Config, sys: Sys, id: nat, io: Io)
    requires DataInv(cfg, sys) && Serialised(cfg, sys) && io.cascade && Clean(sys, StepCreate(id, io)) &&
      id in sys.handlers
    ensures AllHeld(cfg, StepHandler(cfg, sys, id, io))
  {
    var h := sys.handlers[id];
    var e := Advance(cfg, id, h, sys.store, io);
    var handlers' := sys.handlers[id := e.handler];
    if h.pc == Cleanup {
      assert e == AdvanceCleanup(cfg, id, h, sys.store, io);
      DeletionKeepsHeld(cfg, sys, SandboxKeyOf(cfg, h));
      HeldWithHandler(cfg, sys.(store := e.store), id, e.handler);
    } else {
      forall k
        ensures HeldOk(cfg, e.store, handlers', k)
      {
        HeldAfterStep(cfg, sys, id, io, k);
      }
    }
  }

  lemma StepKeepsHeld(cfg: Config, sys: Sys, a: Action)
    requires DataInv(cfg, sys) && Serialised(cfg, sys) && Polite(a) && Clean(sys, a)
    ensures AllHeld(cfg, Step(cfg, sys, a))
  {
    hide Advance, Inv;
    match a {
      case StartCreate(id, _, _, _) =>
        var grant := Authorize(cfg, sys.store, a.token);
        if id !in sys.handlers && grant.Some? {
          HeldWithHandler(cfg, sys, id, NewHandler(grant.value, a.request, a.decoded));
        }
      case StepCreate(id, io) =>
        if id in sys.handlers {
          HandlerStepKeepsHeld(cfg, sys, id, io);
        }
      case HandleDelete(token, name, io) =>
        var grant := Authorize(cfg, sys.store, token);
        if grant.Some? {
          DeletionKeepsHeld(cfg, sys, Key(grant.value.namespace, name));
        }
      case RemoveSandbox(k, io) =>
        DeletionKeepsHeld(cfg, sys, k);
      case PutSandbox(k, spec) =>
        SameSecretsHeld(cfg, sys, Step(cfg, sys, a).store);
      case _ =>
        OtherStepsAreQuiet(cfg, sys, a);
        SameSecretsHeld(cfg, sys, Step(cfg, sys, a).store);
    }
  }

  lemma SameSecretsHeld(cfg: Config, sys: Sys, s': Store)
    requires AllHeld(cfg, sys) && forall k :: KeptSecret(sys.store, s', UserDataKeyOf(k))
    ensures AllHeld(cfg, sys.(store := s'))
  {
    forall k
      ensures HeldOk(cfg, s', sys.handlers, k)
    {
      assert HeldOk(cfg, sys.store, sys.handlers, k) && KeptSecret(sys.store, s', UserDataKeyOf(k));
    }
  }

  /** Well behaved, and clean in every step. */
  ghost predicate CleanRun(cfg: Config, start: Sys, acts: seq<Action>, n: nat)
    requires n <= |acts|
  {
    n > 0 ==>
      var sys := After(cfg, start, acts, n - 1);
      Serialised(cfg, sys) && Polite(acts[n - 1]) && Clean(sys, acts[n - 1]) && CleanRun(cfg, start, acts, n - 1)
  }

  lemma {:induction false} DataHolds(cfg: Config, start: Sys, acts: seq<Action>, n: nat)
    requires n <= |acts| && DataInv(cfg, start) && CleanRun(cfg, start, acts, n)
    ensures DataInv(cfg, After(cfg, start, acts, n))
  {
    if n > 0 {
      DataHolds(cfg, start, acts, n - 1);
      var sys := After(cfg, start, acts, n - 1);
      StepKeepsInv(cfg, sys, acts[n - 1]);
      StepKeepsAllDataOk(cfg, sys, acts[n - 1]);
      StepKeepsHeld(cfg, sys, acts[n - 1]);
    }
  }

  /**
   In every state of a clean run that starts without requests and without secrets under userdata
   names, a sandbox that a request created refers, as long as it lives, to a secret that holds the
   userdata of that very request.
   */
  lemma CleanRunsBootWithOwnUserData(cfg: Config, start: Sys, acts: seq<Action>, n: nat, id: nat)
    requires n <= |acts| && Inv(cfg, start) && start.handlers == map[] && CleanRun(cfg, start, acts, n)
    requires forall k :: UserDataKeyOf(k) !in start.store.secrets
    requires
      var sys := After(cfg, start, acts, n);
      id in sys.handlers && Lives(cfg, sys.store, sys.handlers[id])
    ensures
      var sys := After(cfg, start, acts, n);
      var k := SandboxKeyOf(cfg, sys.handlers[id]);
      var q := Key(k.namespace, sys.store.sandboxes[k].spec.userDataSecret);
      q in sys.store.secrets && sys.store.secrets[q].data == DataOf(sys.handlers[id])
  {
    DataHolds(cfg, start, acts, n);
    LiveRefersToSecret(cfg, After(cfg, start, acts, n), id);
  }
}
