/**
 Inputs and runs that show which hypotheses of the theorems cannot be dropped.
 */
module Counterexamples {
  import opened Objects
  import opened Runner
  import opened Access
  import opened Lifecycle
  import opened Readiness
  import opened UserDataSecrets
  import opened UserDataIdentity
  import R = Reconciler

  const OK := Io(false, true, false)
  const OUTAGE := Io(true, true, false)
  const LATE := Io(false, true, true)

  // ------------------------------------------------------------------ runs, piece by piece

  ghost function Outcome(cfg: Config, start: Sys, acts: seq<Action>): Sys {
    After(cfg, start, acts, |acts|)
  }

  lemma {:induction false} PrefixSuffices(cfg: Config, start: Sys, acts: seq<Action>, more: seq<Action>, i: nat)
    requires i <= |acts|
    ensures After(cfg, start, acts + more, i) == After(cfg, start, acts, i)
  {
    if i > 0 {
      PrefixSuffices(cfg, start, acts, more, i - 1);
    }
  }

  lemma Then(cfg: Config, start: Sys, acts: seq<Action>, a: Action)
    ensures Outcome(cfg, start, acts + [a]) == Step(cfg, Outcome(cfg, start, acts), a)
  {
    hide Step;
    PrefixSuffices(cfg, start, acts, [a], |acts|);
  }

  /** One more step of handler `id`. */
  lemma ThenStep(cfg: Config, start: Sys, acts: seq<Action>, id: nat, h: Handler, io: Io)
    requires id in Outcome(cfg, start, acts).handlers && Outcome(cfg, start, acts).handlers[id] == h
    ensures
      var sys, sys' := Outcome(cfg, start, acts), Outcome(cfg, start, acts + [StepCreate(id, io)]);
      var e := Advance(cfg, id, h, sys.store, io);
      sys'.store == e.store && sys'.handlers == sys.handlers[id := e.handler]
  {
    Then(cfg, start, acts, StepCreate(id, io));
  }

  lemma ThenRemove(cfg: Config, start: Sys, acts: seq<Action>, k: Key)
    ensures
      var sys, sys' := Outcome(cfg, start, acts), Outcome(cfg, start, acts + [RemoveSandbox(k, OK)]);
      sys' == sys.(store := DeleteSandbox(sys.store, k, true))
  {
    Then(cfg, start, acts, RemoveSandbox(k, OK));
  }

  /** A store in which a request under the default token can go through. */
  predicate Vacant(cfg: Config, request: Request, s: Store) {
    && ValidConfig(cfg) && cfg.token != "" && cfg.className in s.classes
    && Key(cfg.namespace, cfg.nameOf(request.sandboxID)) !in s.sandboxes
    && HasRequiredFields(request) && request.vcpus >= 1 && request.memoryMiB >= 128
  }

  /** A handler of such a request at a given point. */
  function Midway(cfg: Config, request: Request, pc: Pc): Handler {
    NewHandler(Grant(cfg.className, cfg.namespace), request, true).(pc := pc)
  }

  function WithUserData(s: Store, k: Key, userData: string): Store {
    if UserDataKeyOf(k) in s.secrets then s
    else s.(secrets := s.secrets[UserDataKeyOf(k) := Secret(map[], map[UserData := userData], None, true)])
  }

  /** A run followed by a request up to the point where it creates its sandbox. */
  function Prepare(acts: seq<Action>, id: nat, token: string, request: Request): seq<Action> {
    acts + [StartCreate(id, token, request, true)] + [StepCreate(id, OK)] + [StepCreate(id, OK)] + [StepCreate(id, OK)]
  }

  lemma Admit(cfg: Config, start: Sys, acts: seq<Action>, id: nat, request: Request)
    requires Vacant(cfg, request, Outcome(cfg, start, acts).store) && id !in Outcome(cfg, start, acts).handlers
    ensures
      var sys, sys' := Outcome(cfg, start, acts),
        Outcome(cfg, start, acts + [StartCreate(id, cfg.token, request, true)]);
      sys'.store == sys.store && sys'.handlers == sys.handlers[id := Midway(cfg, request, CheckClass)]
  {
    Then(cfg, start, acts, StartCreate(id, cfg.token, request, true));
  }

  lemma Prepared(cfg: Config, start: Sys, acts: seq<Action>, id: nat, request: Request)
    requires Vacant(cfg, request, Outcome(cfg, start, acts).store) && id !in Outcome(cfg, start, acts).handlers
    ensures
      var sys, sys' := Outcome(cfg, start, acts), Outcome(cfg, start, Prepare(acts, id, cfg.token, request));
      && sys'.store == WithUserData(sys.store, Key(cfg.namespace, cfg.nameOf(request.sandboxID)), request.userData)
      && sys'.handlers == sys.handlers[id := Midway(cfg, request, CreateSandbox)]
  {
    hide After;
    Admit(cfg, start, acts, id, request);
    var acts1 := acts + [StartCreate(id, cfg.token, request, true)];
    var acts2 := acts1 + [StepCreate(id, OK)];
    ThenStep(cfg, start, acts1, id, Midway(cfg, request, CheckClass), OK);
    ThenStep(cfg, start, acts2, id, Midway(cfg, request, ReadSandbox), OK);
    ThenStep(cfg, start, acts2 + [StepCreate(id, OK)], id, Midway(cfg, request, CreateSecret), OK);
  }

  /** The handler that has created a sandbox under the given uid. */
  function Maker(cfg: Config, request: Request, uid: nat): Handler {
    Midway(cfg, request, OwnSecret).(createdHere := true, uid := uid)
  }

  lemma Make(cfg: Config, start: Sys, acts: seq<Action>, id: nat, request: Request)
    requires Vacant(cfg, request, Outcome(cfg, start, acts).store)
    requires id in Outcome(cfg, start, acts).handlers
    requires Outcome(cfg, start, acts).handlers[id] == Midway(cfg, request, CreateSandbox)
    ensures
      var sys, sys' := Outcome(cfg, start, acts), Outcome(cfg, start, acts + [StepCreate(id, OK)]);
      var k := Key(cfg.namespace, cfg.nameOf(request.sandboxID));
      && sys'.store == AddSandbox(sys.store, k, SpecOf(cfg, Midway(cfg, request, CreateSandbox)))
      && sys'.handlers == sys.handlers[id := Maker(cfg, request, sys.store.nextUid)]
  {
    ThenStep(cfg, start, acts, id, Midway(cfg, request, CreateSandbox), OK);
  }

  function KeyOf(cfg: Config, request: Request): Key {
    Key(cfg.namespace, cfg.nameOf(request.sandboxID))
  }

  /** The sandbox at the request's key was created through the API and has no userdata secret. */
  ghost predicate WithoutUserData(cfg: Config, sys: Sys, k: Key) {
    ApiCreated(sys.store, Made(cfg, sys.handlers), k) && UserDataKeyOf(k) !in sys.store.secrets
  }

  lemma MakerHasMade(cfg: Config, handlers: map<nat, Handler>, id: nat, request: Request, uid: nat, pc: Pc)
    requires id in handlers && handlers[id] == Maker(cfg, request, uid).(pc := pc)
    ensures (KeyOf(cfg, request), uid) in Made(cfg, handlers)
  {
  }

  // ------------------------------------------------------------------ overlapping creates

  /** Two requests for one sandbox have both found nothing and are about to create it. */
  function TwoReady(token: string, request: Request): seq<Action> {
    Prepare(Prepare([], 0, token, request), 1, token, request)
  }

  lemma BothReady(cfg: Config, request: Request, s: Store)
    requires Vacant(cfg, request, s)
    ensures
      var sys := Outcome(cfg, Sys(s, map[], []), TwoReady(cfg.token, request));
      var h := Midway(cfg, request, CreateSandbox);
      && sys.store == WithUserData(s, KeyOf(cfg, request), request.userData)
      && sys.handlers == map[0 := h, 1 := h]
  {
    hide Step;
    var start := Sys(s, map[], []);
    assert Outcome(cfg, start, []) == start;
    hide After;
    Prepared(cfg, start, [], 0, request);
    Prepared(cfg, start, Prepare([], 0, cfg.token, request), 1, request);
  }

  /** The second request cannot create the sandbox any more and drops the secret it shares with the first. */
  function OverlappingCreates(token: string, request: Request): seq<Action> {
    TwoReady(token, request) + [StepCreate(0, OK)] + [StepCreate(1, OK)] + [StepCreate(1, OK)]
  }

  /**
   Without serialised creates the userdata theorem fails: after this run a sandbox created
   through the API has no userdata secret, although every call answered as it should.
   */
  lemma OverlappingCreatesLoseUserData(cfg: Config, request: Request, s: Store)
    requires Vacant(cfg, request, s)
    ensures WithoutUserData(cfg, Outcome(cfg, Sys(s, map[], []), OverlappingCreates(cfg.token, request)),
        KeyOf(cfg, request))
  {
    hide After;
    var start := Sys(s, map[], []);
    var ready := Midway(cfg, request, CreateSandbox);
    BothReady(cfg, request, s);
    var acts1 := TwoReady(cfg.token, request) + [StepCreate(0, OK)];
    var acts2 := acts1 + [StepCreate(1, OK)];
    Make(cfg, start, TwoReady(cfg.token, request), 0, request);
    ThenStep(cfg, start, acts1, 1, ready, OK);
    ThenStep(cfg, start, acts2, 1, ready.(pc := DropSecret), OK);
    MakerHasMade(cfg, Outcome(cfg, start, acts2 + [StepCreate(1, OK)]).handlers, 0, request, s.nextUid, OwnSecret);
  }

  /** The first request fails to create the sandbox and drops the secret; the second then creates it. */
  function BirthAfterDrop(token: string, request: Request): seq<Action> {
    TwoReady(token, request) + [StepCreate(0, OUTAGE)] + [StepCreate(0, OK)] + [StepCreate(1, OK)]
  }

  /** A sandbox may be created without its userdata secret. */
  lemma BornWithoutUserData(cfg: Config, request: Request, s: Store)
    requires Vacant(cfg, request, s)
    ensures WithoutUserData(cfg, Outcome(cfg, Sys(s, map[], []), BirthAfterDrop(cfg.token, request)),
        KeyOf(cfg, request))
  {
    hide After;
    var start := Sys(s, map[], []);
    var ready := Midway(cfg, request, CreateSandbox);
    BothReady(cfg, request, s);
    var acts1 := TwoReady(cfg.token, request) + [StepCreate(0, OUTAGE)];
    var acts2 := acts1 + [StepCreate(0, OK)];
    ThenStep(cfg, start, TwoReady(cfg.token, request), 0, ready, OUTAGE);
    ThenStep(cfg, start, acts1, 0, ready.(pc := DropSecret), OK);
    Make(cfg, start, acts2, 1, request);
    MakerHasMade(cfg, Outcome(cfg, start, acts2 + [StepCreate(1, OK)]).handlers, 1, request, s.nextUid, OwnSecret);
  }

  // ------------------------------------------------------------------ a late request

  /** The sandbox of a request is deleted and created again by another request before the first goes on. */
  function Recreate(token: string, request: Request, k: Key): seq<Action> {
    Prepare(Prepare([], 0, token, request) + [StepCreate(0, OK)] + [RemoveSandbox(k, OK)], 1, token, request)
    + [StepCreate(1, OK)]
  }

  /** The key is free, and the secret of the request is there, without owner. */
  predicate SecretAlone(cfg: Config, s: Store, request: Request, uid: nat) {
    var q := UserDataKeyOf(KeyOf(cfg, request));
    && Vacant(cfg, request, s) && s.nextUid == uid
    && q in s.secrets && s.secrets[q] == Secret(map[], map[UserData := request.userData], None, true)
  }

  /** A sandbox that is deleted before it owns its secret leaves it behind. */
  lemma DeletionLeavesSecret(cfg: Config, request: Request, s: Store, spec: SandboxSpec)
    requires SecretAlone(cfg, s, request, s.nextUid)
    ensures
      var k := KeyOf(cfg, request);
      SecretAlone(cfg, DeleteSandbox(AddSandbox(s, k, spec), k, true), request, s.nextUid + 1)
  {
  }

  lemma RemovedAgain(cfg: Config, request: Request, s: Store)
    requires Vacant(cfg, request, s) && UserDataKeyOf(KeyOf(cfg, request)) !in s.secrets
    ensures
      var k := KeyOf(cfg, request);
      var acts := Prepare([], 0, cfg.token, request) + [StepCreate(0, OK)] + [RemoveSandbox(k, OK)];
      var sys := Outcome(cfg, Sys(s, map[], []), acts);
      SecretAlone(cfg, sys.store, request, s.nextUid + 1) && sys.handlers == map[0 := Maker(cfg, request, s.nextUid)]
  {
    var start := Sys(s, map[], []);
    assert Outcome(cfg, start, []) == start;
    hide After;
    var acts := Prepare([], 0, cfg.token, request);
    Prepared(cfg, start, [], 0, request);
    Make(cfg, start, acts, 0, request);
    ThenRemove(cfg, start, acts + [StepCreate(0, OK)], KeyOf(cfg, request));
    var ready := WithUserData(s, KeyOf(cfg, request), request.userData);
    DeletionLeavesSecret(cfg, request, ready, SpecOf(cfg, Midway(cfg, request, CreateSandbox)));
  }

  /** Both requests have created a sandbox; the second one is there, on the secret of the first. */
  ghost predicate OnSharedSecret(cfg: Config, sys: Sys, request: Request, uid: nat) {
    var k := KeyOf(cfg, request);
    && k in sys.store.sandboxes && sys.store.sandboxes[k] == NewSandbox(uid + 1, sys.store.sandboxes[k].spec)
    && UserDataKeyOf(k) in sys.store.secrets
    && sys.store.secrets[UserDataKeyOf(k)] == Secret(map[], map[UserData := request.userData], None, true)
    && sys.handlers == map[0 := Maker(cfg, request, uid), 1 := Maker(cfg, request, uid + 1)]
  }

  lemma Recreated(cfg: Config, request: Request, s: Store)
    requires Vacant(cfg, request, s) && UserDataKeyOf(KeyOf(cfg, request)) !in s.secrets
    ensures
      var acts := Recreate(cfg.token, request, KeyOf(cfg, request));
      OnSharedSecret(cfg, Outcome(cfg, Sys(s, map[], []), acts), request, s.nextUid)
  {
    hide After;
    var start := Sys(s, map[], []);
    var acts := Prepare([], 0, cfg.token, request) + [StepCreate(0, OK)] + [RemoveSandbox(KeyOf(cfg, request), OK)];
    RemovedAgain(cfg, request, s);
    Prepared(cfg, start, acts, 1, request);
    Make(cfg, start, Prepare(acts, 1, cfg.token, request), 1, request);
  }

  /**
   A sandbox also loses its secret when no creation fails: a late request makes its own sandbox,
   which is gone, the owner of the secret that its successor shares, and the secret is collected.
   */
  lemma LateOwnerLosesUserData(cfg: Config, request: Request, s: Store)
    requires Vacant(cfg, request, s) && UserDataKeyOf(KeyOf(cfg, request)) !in s.secrets
    ensures
      var acts := Recreate(cfg.token, request, KeyOf(cfg, request)) + [StepCreate(0, OK)];
      var sys, k := Outcome(cfg, Sys(s, map[], []), acts), KeyOf(cfg, request);
      && WithoutUserData(cfg, sys, k) &&
        sys.store.sandboxes[k] == NewSandbox(s.nextUid + 1, sys.store.sandboxes[k].spec)
      && sys.handlers.Keys == {0, 1} && sys.handlers[0] == Maker(cfg, request, s.nextUid).(pc := Poll)
  {
    hide After;
    var start := Sys(s, map[], []);
    var acts := Recreate(cfg.token, request, KeyOf(cfg, request));
    Recreated(cfg, request, s);
    ThenStep(cfg, start, acts, 0, Maker(cfg, request, s.nextUid), OK);
    MakerHasMade(cfg, Outcome(cfg, start, acts + [StepCreate(0, OK)]).handlers, 1, request, s.nextUid + 1, OwnSecret);
  }

  /** The late request then waits in vain. */
  function WaitInVain(token: string, request: Request, k: Key): seq<Action> {
    Recreate(token, request, k) + [StepCreate(0, OK)] + [StepCreate(0, OK)] + [StepCreate(0, LATE)]
  }

  /** The cleanup of a request may delete a sandbox that another request created. */
  lemma CleanupDeletesSuccessor(cfg: Config, request: Request, s: Store)
    requires Vacant(cfg, request, s) && UserDataKeyOf(KeyOf(cfg, request)) !in s.secrets
    ensures
      var k, start := KeyOf(cfg, request), Sys(s, map[], []);
      var before := Outcome(cfg, start, WaitInVain(cfg.token, request, k));
      var after := Outcome(cfg, start, WaitInVain(cfg.token, request, k) + [StepCreate(0, OK)]);
      && 0 in before.handlers && k in before.store.sandboxes && before.store.sandboxes[k].uid != before.handlers[0].uid
      && k !in after.store.sandboxes
  {
    hide After;
    var start := Sys(s, map[], []);
    var k := KeyOf(cfg, request);
    var acts1 := Recreate(cfg.token, request, k) + [StepCreate(0, OK)];
    var acts2 := acts1 + [StepCreate(0, OK)];
    var late := Maker(cfg, request, s.nextUid);
    LateOwnerLosesUserData(cfg, request, s);
    ThenStep(cfg, start, acts1, 0, late.(pc := Poll), OK);
    ThenStep(cfg, start, acts2, 0, late.(pc := Wait), LATE);
    ThenStep(cfg, start, acts2 + [StepCreate(0, LATE)], 0, Answer(late, Rejected(504)), OK);
  }

  // ------------------------------------------------------------------ a secret that is left over

  /**
   The first request's sandbox creation fails, and so does the removal of its secret. The second
   request, one after the other, then goes through.
   */
  function LeftOver(token: string, first: Request, second: Request): seq<Action> {
    Prepare(Prepare([], 0, token, first) + [StepCreate(0, OUTAGE)] + [StepCreate(0, OUTAGE)], 1, token, second)
    + [StepCreate(1, OK)]
  }

  lemma FirstLeavesSecret(cfg: Config, first: Request, s: Store)
    requires Vacant(cfg, first, s)
    ensures
      var acts := Prepare([], 0, cfg.token, first) + [StepCreate(0, OUTAGE)] + [StepCreate(0, OUTAGE)];
      var sys := Outcome(cfg, Sys(s, map[], []), acts);
      sys.store == WithUserData(s, KeyOf(cfg, first), first.userData) && sys.handlers.Keys == {0}
  {
    var start := Sys(s, map[], []);
    assert Outcome(cfg, start, []) == start;
    hide After;
    var acts := Prepare([], 0, cfg.token, first);
    Prepared(cfg, start, [], 0, first);
    ThenStep(cfg, start, acts, 0, Midway(cfg, first, CreateSandbox), OUTAGE);
    ThenStep(cfg, start, acts + [StepCreate(0, OUTAGE)], 0, Midway(cfg, first, DropSecret), OUTAGE);
  }

  /** A sandbox may boot with other userdata than its request carries: an existing secret is taken as it is. */
  lemma LeftOverSecretIsReused(cfg: Config, first: Request, second: Request, s: Store)
    requires Vacant(cfg, first, s) && Vacant(cfg, second, s) && first.sandboxID == second.sandboxID
    requires first.userData != second.userData && UserDataKeyOf(KeyOf(cfg, first)) !in s.secrets
    ensures
      var sys := Outcome(cfg, Sys(s, map[], []), LeftOver(cfg.token, first, second));
      var q := UserDataKeyOf(KeyOf(cfg, first));
      && 1 in sys.handlers && sys.handlers[1].request == second && Lives(cfg, sys.store, sys.handlers[1])
      && q in sys.store.secrets && sys.store.secrets[q].data == map[UserData := first.userData]
  {
    hide After;
    var start := Sys(s, map[], []);
    var acts := Prepare([], 0, cfg.token, first) + [StepCreate(0, OUTAGE)] + [StepCreate(0, OUTAGE)];
    FirstLeavesSecret(cfg, first, s);
    Prepared(cfg, start, acts, 1, second);
    Make(cfg, start, Prepare(acts, 1, cfg.token, second), 1, second);
  }

  // ------------------------------------------------------------------ joining with other userdata

  /** A ready sandbox with the identity the request asks for. */
  predicate Joinable(cfg: Config, request: Request, s: Store) {
    var k := KeyOf(cfg, request);
    && ValidConfig(cfg) && cfg.token != "" && cfg.className in s.classes && HasRequiredFields(request)
    && k in s.sandboxes && SameIdentity(Midway(cfg, request, ReadSandbox), s.sandboxes[k].spec)
    && R.IsReady(s.sandboxes[k]) && |s.sandboxes[k].status.ips| > 0
  }

  function Join(token: string, request: Request): seq<Action> {
    [StartCreate(0, token, request, true)] + [StepCreate(0, OK)] + [StepCreate(0, OK)] + [StepCreate(0, OK)]
  }

  lemma StartsJoining(cfg: Config, request: Request, s: Store)
    requires Joinable(cfg, request, s)
    ensures
      var sys := Outcome(cfg, Sys(s, map[], []), [StartCreate(0, cfg.token, request, true)]);
      sys.store == s && sys.handlers == map[0 := Midway(cfg, request, CheckClass)]
  {
    var start, first := Sys(s, map[], []), StartCreate(0, cfg.token, request, true);
    assert Outcome(cfg, start, []) == start && [] + [first] == [first];
    hide After;
    Then(cfg, start, [], first);
  }

  /** Such a request is answered 201 whatever its userdata, and the stored secret stays as it is. */
  lemma JoinIgnoresUserData(cfg: Config, request: Request, s: Store)
    requires Joinable(cfg, request, s)
    ensures
      var sys := Outcome(cfg, Sys(s, map[], []), Join(cfg.token, request));
      sys.store == s && 0 in sys.handlers && sys.handlers[0].reply.Some? && sys.handlers[0].reply.value.Created?
  {
    hide After;
    var start := Sys(s, map[], []);
    var acts1 := [StartCreate(0, cfg.token, request, true)];
    var acts2 := acts1 + [StepCreate(0, OK)];
    StartsJoining(cfg, request, s);
    ThenStep(cfg, start, acts1, 0, Midway(cfg, request, CheckClass), OK);
    ThenStep(cfg, start, acts2, 0, Midway(cfg, request, ReadSandbox), OK);
    ThenStep(cfg, start, acts2 + [StepCreate(0, OK)], 0, Midway(cfg, request, Poll), OK);
  }

  // ------------------------------------------------------------------ lazy garbage collection

  /** The sandbox is deleted without its runner and created again before collection catches up. */
  function Recreation(k: Key, spec: SandboxSpec, t: R.Turn): seq<Action> {
    [RemoveSandbox(k, Io(false, false, false)), PutSandbox(k, spec), Reconcile(k, t)]
  }

  function Reborn(s: Store, k: Key): Store
    requires k in s.sandboxes
  {
    AddSandbox(s.(sandboxes := s.sandboxes - {k}), k, s.sandboxes[k].spec)
  }

  lemma RecreationStates(cfg: Config, s: Store, k: Key, t: R.Turn)
    requires k in s.sandboxes && ValidSpec(s.sandboxes[k].spec)
    ensures After(cfg, Sys(s, map[], []), Recreation(k, s.sandboxes[k].spec, t), 3).store ==
      R.Reconcile(Reborn(s, k), k, t).state
  {
    var acts := Recreation(k, s.sandboxes[k].spec, t);
    var start := Sys(s, map[], []);
    assert After(cfg, start, acts, 1) == Step(cfg, start, acts[0]);
    assert After(cfg, start, acts, 1).store == s.(sandboxes := s.sandboxes - {k});
    assert After(cfg, start, acts, 2).store == Reborn(s, k);
    assert After(cfg, start, acts, 3) == Step(cfg, After(cfg, start, acts, 2), acts[2]);
  }

  lemma RecreatedIsServed(s: Store, k: Key, t: R.Turn)
    requires R.Faultless(t) && k in s.sandboxes && s.sandboxes[k].generation == 1
    requires k in s.pods && R.ServingRunner(R.At(s, k), k, s.pods[k].report.podIP)
    requires R.ReadInputs(R.At(s, k), k, t).Complete?
    ensures
      var end := R.Reconcile(Reborn(s, k), k, t).state;
      && k in end.sandboxes && R.IsReady(end.sandboxes[k]) && end.sandboxes[k].uid == s.nextUid
      && k in end.pods && end.pods[k] == s.pods[k]
  {
    var middle := Reborn(s, k);
    var v := R.At(middle, k);
    assert R.ReadInputs(v, k, t).Complete?;
    assert R.ServingRunner(v, k, s.pods[k].report.podIP);
    R.ReadyIffServing(v, k, t);
    R.ServingIsLive(v, k, t);
    R.ReconcileFrame(middle, k, t);
  }

  /**
   Without collection in the same step, the runner behind Ready=True may be another sandbox's:
   the controller compares template generations, not owners.
   */
  lemma LazyCollectionAdoptsRunner(cfg: Config, s: Store, k: Key, t: R.Turn)
    requires R.Faultless(t) && Init(Sys(s, map[], [])) && PodsOwned(s)
    requires k in s.sandboxes && s.sandboxes[k].generation == 1
    requires k in s.pods && R.ServingRunner(R.At(s, k), k, s.pods[k].report.podIP)
    requires R.ReadInputs(R.At(s, k), k, t).Complete?
    ensures
      var end := After(cfg, Sys(s, map[], []), Recreation(k, s.sandboxes[k].spec, t), 3).store;
      && k in end.sandboxes && R.IsReady(end.sandboxes[k])
      && k in end.pods && end.pods[k].owner != end.sandboxes[k].uid
  {
    RecreationStates(cfg, s, k, t);
    RecreatedIsServed(s, k, t);
  }

  // ------------------------------------------------------------------ a failure report that is lost

  /**
   RunnerFailed is not absorbing by itself: here the runner stays stopped, nothing fails, and
   still the next reconciliation replaces the report, because the userdata secret is gone.
   */
  lemma FailureReportCanBeLost(spec: SandboxSpec, sandboxClass: SandboxClass, k: Key, t: R.Turn)
    requires R.Faultless(t)
    ensures
      var bare := NewSandbox(0, spec);
      var report := Condition(ConditionKind.Ready, False, 1, RunnerFailed, RunnerStoppedEarly, 0);
      var sandbox := bare.(status := EMPTY_STATUS.(conditions := [report]));
      var pod := R.NewRunner(k, sandbox, sandboxClass).(report := NEW_REPORT.(phase := Failed));
      var v := R.View(Some(sandbox), Some(pod), map[], map[spec.className := sandboxClass]);
      && R.StoppedRunner(v, k) && R.ReportsFailure(sandbox)
      && !R.ReportsFailure(R.ReconcileView(v, k, t).state.sandbox.value)
  {
    var bare := NewSandbox(0, spec);
    var report := Condition(ConditionKind.Ready, False, 1, RunnerFailed, RunnerStoppedEarly, 0);
    var sandbox := bare.(status := EMPTY_STATUS.(conditions := [report]));
    var pod := R.NewRunner(k, sandbox, sandboxClass).(report := NEW_REPORT.(phase := Failed));
    var v := R.View(Some(sandbox), Some(pod), map[], map[spec.className := sandboxClass]);
    DesiredRunnerIsCurrent(k.name, sandbox, sandboxClass);
    R.FailureRepeatedIffInputsComplete(v, k, t);
  }

  // ------------------------------------------------------------------ a memory limit that overflows

  /** Guest memory of the largest int64 leaves the pod with a negative memory limit. */
  lemma LargestGuestOverflowsLimit(name: string, sandbox: Sandbox, sandboxClass: SandboxClass)
    requires sandbox.spec.memoryMiB == INT64_MAX && sandboxClass.memoryOverheadMiB == 0
    ensures DesiredRunner(name, sandbox, sandboxClass).memoryLimitMiB < 0
  {
    assert (INT64_MAX + DEFAULT_OVERHEAD_MIB + INT64_MAX + 1) % TWO_64 == DEFAULT_OVERHEAD_MIB - 1;
  }

  // ------------------------------------------------------------------ annotations that a class claims

  /** A workload without namespace runs under the namespace that its class claims in its place. */
  lemma ClassClaimsNamespace(name: string)
    ensures
      var sandbox := NewSandbox(0, SandboxSpec(WorkloadRef("", "web", ""), "id", "secret", "shared", 1, 128, ""));
      var sandboxClass := SandboxClass(1, 0, 0, map[WorkloadNamespaceKey := "elsewhere"], map[]);
      Lookup(DesiredRunner(name, sandbox, sandboxClass).annotations, WorkloadNamespaceKey) == "elsewhere"
  {
  }

  // ------------------------------------------------------------------ a class that is created again

  /** A class of generation 1 is replaced by deleting it and creating another one of that name. */
  function ReplaceClass(name: string, other: SandboxClass): seq<Action> {
    [RemoveClass(name)] + [PutClass(name, other)]
  }

  function WithClass(s: Store, name: string, sandboxClass: SandboxClass): Store {
    s.(classes := s.classes[name := sandboxClass.(generation := 1)])
  }

  lemma ClassReplaced(cfg: Config, s: Store, name: string, other: SandboxClass)
    ensures Outcome(cfg, Sys(s, map[], []), ReplaceClass(name, other)).store == WithClass(s, name, other)
  {
    var start := Sys(s, map[], []);
    assert Outcome(cfg, start, []) == start && [] + [RemoveClass(name)] == [RemoveClass(name)];
    hide After;
    Then(cfg, start, [], RemoveClass(name));
    Then(cfg, start, [RemoveClass(name)], PutClass(name, other));
    assert (s.classes - {name})[name := other.(generation := 1)] == s.classes[name := other.(generation := 1)];
  }

  /** Its runners are not replaced, whatever the new class says. */
  lemma RecreatedClassKeepsRunner(cfg: Config, s: Store, k: Key, other: SandboxClass, t: R.Turn)
    requires k in s.sandboxes && k in s.pods && s.sandboxes[k].spec.className in s.classes
    requires
      var sandboxClass := s.classes[s.sandboxes[k].spec.className];
      sandboxClass.generation == 1 && s.pods[k].template == DesiredRunner(k.name, s.sandboxes[k], sandboxClass)
    ensures
      var name := s.sandboxes[k].spec.className;
      var end := Outcome(cfg, Sys(s, map[], []), ReplaceClass(name, other)).store;
      && end.classes[name] == other.(generation := 1)
      && k in end.sandboxes && k in end.pods && end.pods[k] == s.pods[k]
      && !R.Stale(R.At(end, k), k, t)
  {
    hide After;
    var name := s.sandboxes[k].spec.className;
    ClassReplaced(cfg, s, name, other);
    CurrentIffSameGenerations(k.name, s.sandboxes[k], s.classes[name], k.name, s.sandboxes[k], other.(generation := 1));
  }
}
