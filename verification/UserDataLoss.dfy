/**
 How a sandbox loses its userdata secret when creates may overlap: exactly which steps take it
 away, and exactly when a sandbox has it all its life.
 */
module UserDataLoss {
  import opened Objects
  import opened Access
  import opened Lifecycle
  import opened Readiness
  import opened Lifetimes
  import opened UserDataSecrets
  import R = Reconciler

  // ------------------------------------------------------------------ what holds without serialised creates

  ghost predicate SecretsOk(s: Store, made: set<(Key, nat)>) {
    UidsOk(s, made) && forall k :: SecretOk(s, made, k)
  }

  /** A handler knows of a sandbox of its own exactly past the creation. */
  predicate FlagOk(h: Handler) {
    && (Stage(h.pc) <= 3 || h.pc == DropSecret ==> !h.createdHere)
    && (h.pc == OwnSecret ==> h.createdHere)
  }

  ghost predicate Loose(cfg: Config, sys: Sys) {
    && SecretsOk(sys.store, Made(cfg, sys.handlers))
    && forall id :: id in sys.handlers ==> FlagOk(sys.handlers[id])
  }

  lemma DeletionKeepsSecretsOk(s: Store, made: set<(Key, nat)>, k: Key)
    requires SecretsOk(s, made)
    ensures SecretsOk(DeleteSandbox(s, k, true), made)
  {
    forall q
      ensures SecretOk(DeleteSandbox(s, k, true), made, q)
    {
      assert SecretOk(s, made, q);
    }
  }

  lemma QuietKeepsSecretsOk(s: Store, s': Store, made: set<(Key, nat)>)
    requires SecretsOk(s, made) && Quiet(s, s')
    ensures SecretsOk(s', made)
  {
    forall k
      ensures SecretOk(s', made, k)
    {
      assert SecretOk(s, made, k) && KeptSecret(s, s', UserDataKeyOf(k));
    }
  }

  /** A new sandbox, of the operator or of a handler. */
  lemma AddKeepsSecretsOk(s: Store, made: set<(Key, nat)>, k: Key, spec: SandboxSpec, made': set<(Key, nat)>)
    requires SecretsOk(s, made) && k !in s.sandboxes
    requires made' == made || made' == made + {(k, s.nextUid)}
    ensures SecretsOk(AddSandbox(s, k, spec), made')
  {
    forall q
      ensures SecretOk(AddSandbox(s, k, spec), made', q)
    {
      assert SecretOk(s, made, q);
    }
  }

  /** A change of the userdata secret of one key, to nothing or to a proper one. */
  lemma SecretChangeKeepsSecretsOk(s: Store, s': Store, made: set<(Key, nat)>, k: Key)
    requires SecretsOk(s, made) && s' == s.(secrets := s'.secrets)
    requires forall q :: q != UserDataKeyOf(k) ==> KeptSecret(s, s', q)
    requires SecretOk(s', made, k)
    ensures SecretsOk(s', made)
  {
    forall q
      ensures SecretOk(s', made, q)
    {
      assert SecretOk(s, made, q);
      if UserDataKeyOf(q) == UserDataKeyOf(k) {
        UserDataKeyInjective(q, k);
      } else {
        assert KeptSecret(s, s', UserDataKeyOf(q));
      }
    }
  }

  lemma AdvanceKeepsSecretsOk(cfg: Config, id: nat, h: Handler, s: Store, io: Io, made: set<(Key, nat)>)
    requires io.cascade && SecretsOk(s, made) && FlagOk(h)
    requires h.createdHere ==> (SandboxKeyOf(cfg, h), h.uid) in made
    ensures
      var e := Advance(cfg, id, h, s, io);
      SecretsOk(e.store, if e.handler.createdHere then made + {(SandboxKeyOf(cfg, h), e.handler.uid)} else made)
  {
    var k := SandboxKeyOf(cfg, h);
    var e := Advance(cfg, id, h, s, io);
    AdvanceMade(cfg, id, h, s, io);
    assert h.createdHere ==> made + {(k, h.uid)} == made;
    assert SecretOk(s, made, k);
    match h.pc {
      case CreateSecret =>
        assert e == AdvanceCreateSecret(cfg, id, h, s, io);
        SecretChangeKeepsSecretsOk(s, e.store, made, k);
      case CreateSandbox =>
        assert e == AdvanceCreateSandbox(cfg, id, h, s, io);
        if e.handler.createdHere {
          AddKeepsSecretsOk(s, made, k, SpecOf(cfg, h), made + {(k, s.nextUid)});
        }
      case DropSecret =>
        assert e == AdvanceDropSecret(cfg, id, h, s, io);
        SecretChangeKeepsSecretsOk(s, e.store, made, k);
      case OwnSecret =>
        assert e == AdvanceOwnSecret(cfg, id, h, s, io);
        SecretChangeKeepsSecretsOk(s, e.store, made, k);
      case Cleanup =>
        assert e == AdvanceCleanup(cfg, id, h, s, io);
        DeletionKeepsSecretsOk(s, made, k);
      case _ =>
        IdleStep(cfg, id, h, s, io);
    }
  }

  lemma AdvanceKeepsFlagOk(cfg: Config, id: nat, h: Handler, s: Store, io: Io)
    requires FlagOk(h)
    ensures FlagOk(Advance(cfg, id, h, s, io).handler)
  {
    AdvanceMade(cfg, id, h, s, io);
    AdvanceStage(cfg, id, h, s, io);
    match h.pc
    case CreateSandbox =>
      assert Advance(cfg, id, h, s, io) == AdvanceCreateSandbox(cfg, id, h, s, io);
    case ReadSandbox =>
    case CheckClass =>
    case CreateSecret =>
    case _ =>
  }

  lemma HandlerStepKeepsLoose(cfg: Config, sys: Sys, id: nat, io: Io)
    requires Loose(cfg, sys) && io.cascade && id in sys.handlers
    ensures Loose(cfg, StepHandler(cfg, sys, id, io))
  {
    var h := sys.handlers[id];
    var e := Advance(cfg, id, h, sys.store, io);
    AdvanceKeepsSecretsOk(cfg, id, h, sys.store, io, Made(cfg, sys.handlers));
    AdvanceKeepsFlagOk(cfg, id, h, sys.store, io);
    AdvanceMade(cfg, id, h, sys.store, io);
    MadeAfterUpdate(cfg, sys.handlers, id, e.handler);
  }

  lemma StepKeepsLoose(cfg: Config, sys: Sys, a: Action)
    requires Loose(cfg, sys) && Polite(a)
    ensures Loose(cfg, Step(cfg, sys, a))
  {
    hide Advance, R.Reconcile;
    var made := Made(cfg, sys.handlers);
    match a {
      case StartCreate(id, _, _, _) =>
        var grant := Authorize(cfg, sys.store, a.token);
        if id !in sys.handlers && grant.Some? {
          MadeAfterStart(cfg, sys.handlers, id, NewHandler(grant.value, a.request, a.decoded));
        }
      case StepCreate(id, io) =>
        if id in sys.handlers {
          HandlerStepKeepsLoose(cfg, sys, id, io);
        }
      case HandleDelete(token, name, io) =>
        var grant := Authorize(cfg, sys.store, token);
        if grant.Some? {
          DeletionKeepsSecretsOk(sys.store, made, Key(grant.value.namespace, name));
        }
      case RemoveSandbox(k, io) =>
        DeletionKeepsSecretsOk(sys.store, made, k);
      case PutSandbox(k, spec) =>
        if k !in sys.store.sandboxes {
          AddKeepsSecretsOk(sys.store, made, k, spec, made);
        }
      case _ =>
        OtherStepsAreQuiet(cfg, sys, a);
        QuietKeepsSecretsOk(sys.store, Step(cfg, sys, a).store, made);
    }
  }

  ghost predicate PoliteRun(acts: seq<Action>, n: nat)
    requires n <= |acts|
  {
    forall i :: 0 <= i < n ==> Polite(acts[i])
  }

  lemma {:induction false} LooseHolds(cfg: Config, start: Sys, acts: seq<Action>, n: nat)
    requires n <= |acts| && Loose(cfg, start) && PoliteRun(acts, n)
    ensures Loose(cfg, After(cfg, start, acts, n))
  {
    if n > 0 {
      LooseHolds(cfg, start, acts, n - 1);
      StepKeepsLoose(cfg, After(cfg, start, acts, n - 1), acts[n - 1]);
    }
  }

  /** A start without requests that meets the invariant of serialised creates. */
  lemma LooseInitially(cfg: Config, start: Sys)
    requires Inv(cfg, start) && start.handlers == map[]
    ensures Loose(cfg, start)
  {
  }

  // ------------------------------------------------------------------ one step

  /**
   The step takes the userdata secret of the sandbox at `k` away: a request of that key drops it
   after a failed creation, or makes a sandbox its owner that is no longer the one at `k`.
   */
  predicate TakesUserData(cfg: Config, sys: Sys, a: Action, k: Key) {
    && a.StepCreate? && a.id in sys.handlers && !a.io.fault
    && var h := sys.handlers[a.id];
       var q := UserDataKeyOf(k);
       && SandboxKeyOf(cfg, h) == k
       && (|| h.pc == DropSecret
           || (&& h.pc == OwnSecret
               && k in sys.store.sandboxes && sys.store.sandboxes[k].uid != h.uid
               && q in sys.store.secrets && sys.store.secrets[q].data == map[UserData := h.request.userData]))
  }

  /** Deleting another sandbox takes no secret from the one at `k`. */
  lemma DeletionSpares(s: Store, made: set<(Key, nat)>, k: Key, other: Key)
    requires SecretsOk(s, made) && k in s.sandboxes && k in DeleteSandbox(s, other, true).sandboxes
    requires UserDataKeyOf(k) in s.secrets
    ensures UserDataKeyOf(k) in DeleteSandbox(s, other, true).secrets
  {
    assert SecretOk(s, made, k);
  }

  lemma HandlerLosesIff(cfg: Config, sys: Sys, id: nat, io: Io, k: Key)
    requires Loose(cfg, sys) && io.cascade && id in sys.handlers
    requires k in sys.store.sandboxes && k in StepHandler(cfg, sys, id, io).store.sandboxes
    requires UserDataKeyOf(k) in sys.store.secrets
    ensures UserDataKeyOf(k) !in StepHandler(cfg, sys, id, io).store.secrets
            <==> TakesUserData(cfg, sys, StepCreate(id, io), k)
  {
    hide SpecOf, AdvanceCheckClass, AdvanceReadSandbox, AdvancePoll;
    var s, h := sys.store, sys.handlers[id];
    var made := Made(cfg, sys.handlers);
    var e := Advance(cfg, id, h, s, io);
    assert SecretOk(s, made, k);
    if h.pc == Cleanup {
      assert e == AdvanceCleanup(cfg, id, h, s, io);
      if e.store != s {
        DeletionSpares(s, made, k, SandboxKeyOf(cfg, h));
      }
    } else if SandboxKeyOf(cfg, h) != k {
      OtherKeySecret(cfg, id, h, s, io, k);
    } else if h.pc == CreateSecret {
      assert e == AdvanceCreateSecret(cfg, id, h, s, io);
    } else if h.pc == CreateSandbox {
      assert e == AdvanceCreateSandbox(cfg, id, h, s, io);
    } else if h.pc == DropSecret {
      assert e == AdvanceDropSecret(cfg, id, h, s, io);
    } else if h.pc == OwnSecret {
      assert e == AdvanceOwnSecret(cfg, id, h, s, io);
    } else {
      IdleStep(cfg, id, h, s, io);
    }
  }

  /** A sandbox that stays in place loses its userdata secret in exactly these steps. */
  lemma LosesUserDataIff(cfg: Config, sys: Sys, a: Action, k: Key)
    requires Loose(cfg, sys) && Polite(a)
    requires k in sys.store.sandboxes && k in Step(cfg, sys, a).store.sandboxes
    requires UserDataKeyOf(k) in sys.store.secrets
    ensures UserDataKeyOf(k) !in Step(cfg, sys, a).store.secrets <==> TakesUserData(cfg, sys, a, k)
  {
    hide Authorize, UidsOk;
    hide Advance, R.Reconcile;
    var made := Made(cfg, sys.handlers);
    match a {
      case StartCreate(_, _, _, _) =>
      case StepCreate(id, io) =>
        if id in sys.handlers {
          HandlerLosesIff(cfg, sys, id, io, k);
        }
      case HandleDelete(token, name, io) =>
        var grant := Authorize(cfg, sys.store, token);
        if grant.Some? {
          var q := Key(grant.value.namespace, name);
          if k in DeleteSandbox(sys.store, q, true).sandboxes {
            DeletionSpares(sys.store, made, k, q);
          }
        }
      case RemoveSandbox(q, io) =>
        DeletionSpares(sys.store, made, k, q);
      case PutSandbox(_, _) =>
      case _ =>
        OtherStepsAreQuiet(cfg, sys, a);
        assert KeptSecret(sys.store, Step(cfg, sys, a).store, UserDataKeyOf(k));
    }
  }

  // ------------------------------------------------------------------ a whole life

  ghost predicate HasUserDataThroughout(cfg: Config, start: Sys, acts: seq<Action>, i: nat, n: nat, k: Key)
    requires i <= n <= |acts|
  {
    UserDataKeyOf(k) in After(cfg, start, acts, n).store.secrets
    && (i < n ==> HasUserDataThroughout(cfg, start, acts, i, n - 1, k))
  }

  /** No action from `i` up to `n` takes the userdata of `k` away. */
  ghost predicate NeverTaken(cfg: Config, start: Sys, acts: seq<Action>, i: nat, n: nat, k: Key)
    requires i <= n <= |acts|
  {
    i < n ==>
      !TakesUserData(cfg, After(cfg, start, acts, n - 1), acts[n - 1], k) && NeverTaken(cfg, start, acts, i, n - 1, k)
  }

  lemma {:induction false} KeptIffNeverTaken(cfg: Config, start: Sys, acts: seq<Action>, i: nat, n: nat, k: Key)
    requires i <= n <= |acts| && Loose(cfg, start) && PoliteRun(acts, n) && Occupied(cfg, start, acts, i, n, k)
    ensures
      HasUserDataThroughout(cfg, start, acts, i, n, k)
      <==> UserDataKeyOf(k) in After(cfg, start, acts, i).store.secrets && NeverTaken(cfg, start, acts, i, n, k)
  {
    hide Step, TakesUserData;
    if i < n {
      KeptIffNeverTaken(cfg, start, acts, i, n - 1, k);
      LooseHolds(cfg, start, acts, n - 1);
      LosesAt(cfg, start, acts, n - 1, k);
    }
  }

  lemma LosesAt(cfg: Config, start: Sys, acts: seq<Action>, n: nat, k: Key)
    requires n < |acts| && Loose(cfg, After(cfg, start, acts, n)) && Polite(acts[n])
    requires k in After(cfg, start, acts, n).store.sandboxes && k in After(cfg, start, acts, n + 1).store.sandboxes
    ensures UserDataKeyOf(k) in After(cfg, start, acts, n).store.secrets ==>
      (UserDataKeyOf(k) !in After(cfg, start, acts, n + 1).store.secrets
       <==> TakesUserData(cfg, After(cfg, start, acts, n), acts[n], k))
  {
    if UserDataKeyOf(k) in After(cfg, start, acts, n).store.secrets {
      LosesUserDataIff(cfg, After(cfg, start, acts, n), acts[n], k);
    }
  }

  /**
   A sandbox has its userdata secret all its life, from its creation on, exactly when the secret
   was there at its creation and no later step takes it away. Creates may overlap.
   */
  lemma KeepsUserDataIff(cfg: Config, start: Sys, acts: seq<Action>, i: nat, n: nat, k: Key)
    requires i < n <= |acts| && Loose(cfg, start) && PoliteRun(acts, n)
    requires Creates(cfg, start, acts, i, k) && Occupied(cfg, start, acts, i + 1, n, k)
    ensures
      HasUserDataThroughout(cfg, start, acts, i + 1, n, k)
      <==> UserDataKeyOf(k) in After(cfg, start, acts, i).store.secrets && NeverTaken(cfg, start, acts, i + 1, n, k)
  {
    hide StepStore, StepHandler, StepStart, Occupied;
    CreationKeepsRest(cfg, After(cfg, start, acts, i), acts[i], k);
    KeptIffNeverTaken(cfg, start, acts, i + 1, n, k);
  }

  lemma MakerRefersToUserData(cfg: Config, sys: Sys, id: nat, io: Io)
    requires id in sys.handlers && sys.handlers[id].pc == CreateSandbox
    requires StepHandler(cfg, sys, id, io).handlers[id].pc == OwnSecret
    ensures
      var s, k := StepHandler(cfg, sys, id, io).store, SandboxKeyOf(cfg, sys.handlers[id]);
      k in s.sandboxes && s.sandboxes[k].spec.userDataSecret == UserDataSecretName(k.name)
  {
    var h := sys.handlers[id];
    assert Advance(cfg, id, h, sys.store, io) == AdvanceCreateSandbox(cfg, id, h, sys.store, io);
  }

  /** The secret that the sandbox of a request refers to. */
  lemma RefersToUserData(cfg: Config, start: Sys, acts: seq<Action>, i: nat, n: nat, id: nat, k: Key)
    requires i < n <= |acts| && MakesSandbox(cfg, start, acts, i, id)
    requires k == SandboxKeyOf(cfg, After(cfg, start, acts, i).handlers[id]) && Occupied(cfg, start, acts, i + 1, n, k)
    ensures
      var s := After(cfg, start, acts, n).store;
      k in s.sandboxes && s.sandboxes[k].spec.userDataSecret == UserDataSecretName(k.name)
  {
    hide StepHandler, StepStore, StepStart, Occupied;
    MakerRefersToUserData(cfg, After(cfg, start, acts, i), id, acts[i].io);
    OccupantStays(cfg, start, acts, i + 1, n, k);
  }

  /** The controller finds sandbox and class and is not told that the secret cannot be read. */
  predicate ReadsUpToSecret(v: R.View, t: R.Turn) {
    && v.sandbox.Some? && !v.sandbox.value.deleting && v.sandbox.value.spec.className in v.classes
    && R.GetSandbox !in t.faults && R.GetClass !in t.faults && R.GetSecret !in t.faults
  }

  lemma UnavailableIffAbsent(v: R.View, k: Key, t: R.Turn)
    requires ReadsUpToSecret(v, t) && v.sandbox.value.spec.userDataSecret == UserDataSecretName(k.name)
    requires UserDataKeyOf(k) in v.secrets ==> UserData in v.secrets[UserDataKeyOf(k)].data
    ensures R.ReadInputs(v, k, t).Lacking? <==> UserDataKeyOf(k) !in v.secrets
    ensures R.ReadInputs(v, k, t).Lacking? ==> R.ReadInputs(v, k, t).reason == UserDataUnavailable
  {
  }

  /**
   For a sandbox created through the API, a reconciliation that reads up to the secret reports
   UserDataUnavailable exactly when the secret is gone.
   */
  lemma UserDataUnavailableIffLost(cfg: Config, start: Sys, acts: seq<Action>, i: nat, n: nat, id: nat, k: Key,
      t: R.Turn)
    requires i < n <= |acts| && Loose(cfg, start) && PoliteRun(acts, n) && MakesSandbox(cfg, start, acts, i, id)
    requires k == SandboxKeyOf(cfg, After(cfg, start, acts, i).handlers[id]) && Occupied(cfg, start, acts, i + 1, n, k)
    requires ReadsUpToSecret(R.At(After(cfg, start, acts, n).store, k), t)
    ensures
      var s := After(cfg, start, acts, n).store;
      var inputs := R.ReadInputs(R.At(s, k), k, t);
      && (inputs.Lacking? <==> UserDataKeyOf(k) !in s.secrets)
      && (inputs.Lacking? ==> inputs.reason == UserDataUnavailable)
  {
    RefersToUserData(cfg, start, acts, i, n, id, k);
    LooseHolds(cfg, start, acts, n);
    var sys := After(cfg, start, acts, n);
    assert SecretOk(sys.store, Made(cfg, sys.handlers), k);
    UnavailableIffAbsent(R.At(sys.store, k), k, t);
  }
}
