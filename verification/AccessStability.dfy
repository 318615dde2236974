/**
 The server's own work never changes what a token is worth.
 */
module AccessStability {
  import opened Objects
  import opened Access
  import opened Lifecycle
  import R = Reconciler

  /** The name of a userdata secret for some sandbox ID. */
  ghost predicate IsUserDataName(cfg: Config, name: string) {
    exists id :: name == UserDataSecretName(cfg.nameOf(id))
  }

  /** Secrets that decide about tokens: the default token and the access secrets. */
  predicate Relevant(cfg: Config, k: Key, secret: Secret) {
    k == Key(cfg.namespace, cfg.tokenSecretName) || IsAccessSecret(cfg, k, secret)
  }

  /** Those secrets are the operator's: not named like userdata secrets and not owned by sandboxes. */
  ghost predicate Managed(cfg: Config, s: Store) {
    && !IsUserDataName(cfg, cfg.tokenSecretName)
    && forall k :: k in s.secrets && Relevant(cfg, k, s.secrets[k]) ==>
      !IsUserDataName(cfg, k.name) && s.secrets[k].owner.None?
  }

  /** Both stores hold the same relevant secrets. */
  ghost predicate SameRelevant(cfg: Config, s: Store, s': Store) {
    forall k ::
      KeptSecret(s, s', k)
      || (!(k in s.secrets && Relevant(cfg, k, s.secrets[k])) && !(k in s'.secrets && Relevant(cfg, k, s'.secrets[k])))
  }

  lemma SameRelevantSameAccess(cfg: Config, s: Store, s': Store, got: string)
    requires SameRelevant(cfg, s, s')
    ensures AuthorizedAccess(cfg, s', got) == AuthorizedAccess(cfg, s, got)
  {
    var tokenKey := Key(cfg.namespace, cfg.tokenSecretName);
    assert KeptSecret(s, s', tokenKey) || (tokenKey !in s.secrets && tokenKey !in s'.secrets);
    assert AccessSecrets(cfg, s') == AccessSecrets(cfg, s);
  }

  lemma DeleteIsIrrelevant(cfg: Config, s: Store, k: Key, cascade: bool)
    requires Managed(cfg, s)
    ensures SameRelevant(cfg, s, DeleteSandbox(s, k, cascade)) && Managed(cfg, DeleteSandbox(s, k, cascade))
  {
  }

  lemma OwnSecretIsIrrelevant(cfg: Config, s: Store, h: Handler, secret: Secret)
    requires Managed(cfg, s) && secret.labels == map[]
    ensures
      var q := UserDataKeyOf(SandboxKeyOf(cfg, h));
      !Relevant(cfg, q, secret) && (q in s.secrets ==> !Relevant(cfg, q, s.secrets[q]))
  {
    var q := UserDataKeyOf(SandboxKeyOf(cfg, h));
    assert IsUserDataName(cfg, q.name);
  }

  lemma AdvanceOwnSecretUnlabelled(cfg: Config, id: nat, h: Handler, s: Store, io: Io)
    requires h.pc != Cleanup
    ensures
      var q, s' := UserDataKeyOf(SandboxKeyOf(cfg, h)), Advance(cfg, id, h, s, io).store;
      q in s'.secrets ==> (q in s.secrets && s'.secrets[q] == s.secrets[q]) || s'.secrets[q].labels == map[]
  {
    match h.pc
    case CreateSecret =>
    case CreateSandbox =>
    case DropSecret =>
    case OwnSecret =>
    case _ =>
  }

  lemma AdvanceIsIrrelevant(cfg: Config, id: nat, h: Handler, s: Store, io: Io)
    requires Managed(cfg, s)
    ensures
      var s' := Advance(cfg, id, h, s, io).store;
      SameRelevant(cfg, s, s') && Managed(cfg, s')
  {
    hide AdvanceCheckClass, AdvanceReadSandbox, AdvancePoll, SpecOf;
    var s' := Advance(cfg, id, h, s, io).store;
    if h.pc == Cleanup {
      assert Advance(cfg, id, h, s, io) == AdvanceCleanup(cfg, id, h, s, io);
      DeleteIsIrrelevant(cfg, s, SandboxKeyOf(cfg, h), io.cascade);
    } else {
      var q := UserDataKeyOf(SandboxKeyOf(cfg, h));
      forall k | k != q
        ensures KeptSecret(s, s', k)
      {
        AdvanceSecrets(cfg, id, h, s, io, k);
      }
      AdvanceOwnSecretUnlabelled(cfg, id, h, s, io);
      OwnSecretIsIrrelevant(cfg, s, h, Secret(map[], map[], None, true));
      if q in s'.secrets && s'.secrets[q].labels == map[] {
        OwnSecretIsIrrelevant(cfg, s, h, s'.secrets[q]);
      }
    }
  }

  /** Steps of the server, the controller and the kubelet, as opposed to the operator's. */
  predicate Internal(a: Action) {
    a.StartCreate? || a.StepCreate? || a.HandleDelete? || a.Reconcile? || a.Kubelet? || a.RemovePod?
  }

  lemma InternalIsIrrelevant(cfg: Config, sys: Sys, a: Action)
    requires Managed(cfg, sys.store) && Internal(a)
    ensures SameRelevant(cfg, sys.store, Step(cfg, sys, a).store) && Managed(cfg, Step(cfg, sys, a).store)
  {
    match a
    case StepCreate(id, io) =>
      if id in sys.handlers {
        AdvanceIsIrrelevant(cfg, id, sys.handlers[id], sys.store, io);
      }
    case HandleDelete(token, name, io) =>
      var grant := Authorize(cfg, sys.store, token);
      if grant.Some? {
        DeleteIsIrrelevant(cfg, sys.store, Key(grant.value.namespace, name), io.cascade);
      }
    case Reconcile(k, turn) =>
      R.ReconcileFrame(sys.store, k, turn);
    case _ =>
  }

  lemma InternalStep(cfg: Config, sys: Sys, a: Action, got: string)
    requires Managed(cfg, sys.store) && Internal(a)
    ensures Managed(cfg, Step(cfg, sys, a).store)
    ensures AuthorizedAccess(cfg, Step(cfg, sys, a).store, got) == AuthorizedAccess(cfg, sys.store, got)
  {
    InternalIsIrrelevant(cfg, sys, a);
    SameRelevantSameAccess(cfg, sys.store, Step(cfg, sys, a).store, got);
  }

  /** Over every run of creations, deletions and reconciliations, every token keeps its worth. */
  lemma {:induction false} TokensKeepTheirWorth(cfg: Config, start: Sys, acts: seq<Action>, n: nat, got: string)
    requires n <= |acts| && Managed(cfg, start.store)
    requires forall i :: 0 <= i < n ==> Internal(acts[i])
    ensures Managed(cfg, After(cfg, start, acts, n).store)
    ensures AuthorizedAccess(cfg, After(cfg, start, acts, n).store, got) == AuthorizedAccess(cfg, start.store, got)
  {
    hide Step, AuthorizedAccess;
    if n > 0 {
      TokensKeepTheirWorth(cfg, start, acts, n - 1, got);
      InternalStep(cfg, After(cfg, start, acts, n - 1), acts[n - 1], got);
    }
  }
}
