/**
 The sandbox lifecycle as a transition system. HTTP handlers, the controller, the kubelet,
 the operator and the garbage collector share one store; each action below is one atomic
 step of one of them. A create handler (`createSandbox` in internal/server/server.go) takes
 one action per API call, so anything may happen between two of its calls.

 All nondeterminism is data in the action, so a run is an initial state and a list of actions.
 */
module Lifecycle {
  import opened Objects
  import opened Conditions
  import opened Access
  import R = Reconciler

  // ------------------------------------------------------------------ create handlers

  datatype Request = Request(
    workloadRef: WorkloadRef,
    sandboxID: string,
    userData: string,
    vcpus: int,
    memoryMiB: int,
    arch: string)

  predicate HasRequiredFields(r: Request) {
    r.workloadRef.name != "" && r.sandboxID != "" && r.userData != ""
  }

  /** The next thing a create handler does. */
  datatype Pc =
    | CheckClass | ReadSandbox | CreateSecret | CreateSandbox | DropSecret | OwnSecret
    | Poll | Wait | Cleanup | Done

  datatype Reply = Created(id: string, name: string, ips: seq<string>) | Rejected(code: int)

  /**
   The local state of one create handler. `decoded` says that the body is a JSON request,
   `uid` is the uid of the sandbox object the handler created.
   */
  datatype Handler = Handler(
    grant: Grant,
    request: Request,
    decoded: bool,
    pc: Pc,
    createdHere: bool,
    completed: bool,
    uid: nat,
    reply: Option<Reply>)

  function NewHandler(grant: Grant, request: Request, decoded: bool): Handler {
    Handler(grant, request, decoded, CheckClass, false, false, 0, None)
  }

  function UserDataSecretName(name: string): string {
    name + "-userdata"
  }

  function SandboxKeyOf(cfg: Config, h: Handler): Key {
    Key(h.grant.namespace, cfg.nameOf(h.request.sandboxID))
  }

  function UserDataKeyOf(k: Key): Key {
    Key(k.namespace, UserDataSecretName(k.name))
  }

  /** The spec a handler creates, with the defaults for missing sizes filled in. */
  function SpecOf(cfg: Config, h: Handler): SandboxSpec {
    SandboxSpec(
      h.request.workloadRef,
      h.request.sandboxID,
      UserDataSecretName(cfg.nameOf(h.request.sandboxID)),
      h.grant.className,
      if h.request.vcpus <= 0 then 2 else h.request.vcpus,
      if h.request.memoryMiB <= 0 then 2048 else h.request.memoryMiB,
      h.request.arch)
  }

  /** The identity check for a sandbox that already exists. */
  predicate SameIdentity(h: Handler, spec: SandboxSpec) {
    && spec.sandboxID == h.request.sandboxID
    && spec.className == h.grant.className
    && spec.workloadRef == h.request.workloadRef
  }

  /** Writes that create handlers send to the API server, in order. */
  datatype Verb = CreatesSecret | CreatesSandbox(className: string) | DeletesSecret | UpdatesSecret | DeletesSandbox

  datatype Audit = Audit(actor: nat, verb: Verb, key: Key, ok: bool)

  /**
   How the environment answers one step: whether the API call fails without effect, whether
   dependents of a removed owner are collected in the same step, and whether the request
   context has expired.
   */
  datatype Io = Io(fault: bool, cascade: bool, expired: bool)

  datatype Effect = Effect(handler: Handler, store: Store, calls: seq<Audit>)

  // ------------------------------------------------------------------ API operations

  function NewSandbox(uid: nat, spec: SandboxSpec): Sandbox {
    Sandbox(uid, 1, false, spec, EMPTY_STATUS)
  }

  function AddSandbox(s: Store, k: Key, spec: SandboxSpec): Store {
    s.(sandboxes := s.sandboxes[k := NewSandbox(s.nextUid, spec)], nextUid := s.nextUid + 1)
  }

  function UncollectedPods(s: Store, namespace: string, uid: nat): map<Key, Pod> {
    map q | q in s.pods && !(q.namespace == namespace && s.pods[q].owner == uid) :: s.pods[q]
  }

  function UncollectedSecrets(s: Store, namespace: string, uid: nat): map<Key, Secret> {
    map q | q in s.secrets && !(q.namespace == namespace && s.secrets[q].owner == Some(uid)) :: s.secrets[q]
  }

  /** Deletes a sandbox, if present, and with `cascade` everything it owns. */
  function DeleteSandbox(s: Store, k: Key, cascade: bool): Store {
    if k !in s.sandboxes then s
    else
      var rest := s.(sandboxes := s.sandboxes - {k});
      if !cascade then rest
      else
        var uid := s.sandboxes[k].uid;
        rest.(
          pods := UncollectedPods(s, k.namespace, uid),
          secrets := UncollectedSecrets(s, k.namespace, uid))
  }

  /**
   Makes a sandbox the owner of its userdata secret. The update carries the request's data and
   is rejected for an immutable secret with other data. With `cascade`, a secret whose new owner
   is already gone is collected at once.
   */
  function AdoptSecret(s: Store, k: Key, uid: nat, userData: string, cascade: bool): Store {
    var key := UserDataKeyOf(k);
    var data := map[UserData := userData];
    if key !in s.secrets || (s.secrets[key].immutable && s.secrets[key].data != data) then s
    else if cascade && !(k in s.sandboxes && s.sandboxes[k].uid == uid) then s.(secrets := s.secrets - {key})
    else s.(secrets := s.secrets[key := Secret(map[], data, Some(uid), true)])
  }

  // ------------------------------------------------------------------ one handler step

  function Answer(h: Handler, reply: Reply): Handler {
    h.(reply := Some(reply), completed := reply.Created?, pc := Cleanup)
  }

  predicate Refused(h: Handler) {
    h.reply.Some? && h.reply.value.Rejected?
  }

  /** A step that creates no sandbox keeps all but pc and answer, and either answers or goes on. */
  predicate Follows(h: Handler, h': Handler) {
    && h'.grant == h.grant && h'.request == h.request && h'.createdHere == h.createdHere && h'.uid == h.uid
    && if h'.pc == Cleanup then h'.reply.Some? && h'.completed == h'.reply.value.Created?
       else h'.reply == h.reply && h'.completed == h.completed
  }

  function AdvanceCheckClass(h: Handler, s: Store, io: Io): (h': Handler)
    ensures Follows(h, h') && h'.pc in {Cleanup, ReadSandbox} && (h'.pc == Cleanup ==> Refused(h'))
  {
    if io.fault || h.grant.className !in s.classes then Answer(h, Rejected(503))
    else if !h.decoded || !HasRequiredFields(h.request) then Answer(h, Rejected(400))
    else h.(pc := ReadSandbox)
  }

  function AdvanceReadSandbox(cfg: Config, h: Handler, s: Store, io: Io): (h': Handler)
    ensures Follows(h, h') && h'.pc in {Cleanup, CreateSecret, Poll} && (h'.pc == Cleanup ==> Refused(h'))
  {
    var k := SandboxKeyOf(cfg, h);
    if io.fault then Answer(h, Rejected(500))
    else if k !in s.sandboxes then h.(pc := CreateSecret)
    else if !SameIdentity(h, s.sandboxes[k].spec) then Answer(h, Rejected(409))
    else h.(pc := Poll)
  }

  function AdvanceCreateSecret(cfg: Config, id: nat, h: Handler, s: Store, io: Io): (e: Effect)
    ensures e.store == s.(secrets := e.store.secrets)
    ensures Follows(h, e.handler) && e.handler.pc in {Cleanup, CreateSandbox}
    ensures e.handler.pc == Cleanup ==> Refused(e.handler)
    ensures |e.calls| == 1 && e.calls[0].verb == CreatesSecret
  {
    var key := UserDataKeyOf(SandboxKeyOf(cfg, h));
    if io.fault then Effect(Answer(h, Rejected(500)), s, [Audit(id, CreatesSecret, key, false)])
    else
      var secret := Secret(map[], map[UserData := h.request.userData], None, true);
      var added := if key in s.secrets then s else s.(secrets := s.secrets[key := secret]);
      Effect(h.(pc := CreateSandbox), added, [Audit(id, CreatesSecret, key, key !in s.secrets)])
  }

  function AdvanceCreateSandbox(cfg: Config, id: nat, h: Handler, s: Store, io: Io): (e: Effect)
    ensures e.store == s.(sandboxes := e.store.sandboxes, nextUid := e.store.nextUid)
    ensures Follows(h, e.handler.(createdHere := h.createdHere, uid := h.uid)) &&
      e.handler.pc in {OwnSecret, DropSecret}
    ensures e.handler.pc == DropSecret ==> Follows(h, e.handler)
  {
    var k := SandboxKeyOf(cfg, h);
    var spec := SpecOf(cfg, h);
    var ok := !io.fault && k !in s.sandboxes && ValidSpec(spec);
    var call := Audit(id, CreatesSandbox(h.grant.className), k, ok);
    if ok then Effect(h.(pc := OwnSecret, createdHere := true, uid := s.nextUid), AddSandbox(s, k, spec), [call])
    else Effect(h.(pc := DropSecret), s, [call])
  }

  function AdvanceDropSecret(cfg: Config, id: nat, h: Handler, s: Store, io: Io): (e: Effect)
    ensures e.store == s.(secrets := e.store.secrets)
    ensures Follows(h, e.handler) && e.handler.pc == Cleanup && Refused(e.handler)
    ensures |e.calls| == 1 && e.calls[0].verb == DeletesSecret
  {
    var key := UserDataKeyOf(SandboxKeyOf(cfg, h));
    var dropped := if io.fault then s else s.(secrets := s.secrets - {key});
    Effect(Answer(h, Rejected(500)), dropped, [Audit(id, DeletesSecret, key, !io.fault)])
  }

  function AdvanceOwnSecret(cfg: Config, id: nat, h: Handler, s: Store, io: Io): (e: Effect)
    ensures e.store == s.(secrets := e.store.secrets)
    ensures Follows(h, e.handler) && e.handler.pc == Poll
    ensures |e.calls| == 1 && e.calls[0].verb == UpdatesSecret
  {
    var k := SandboxKeyOf(cfg, h);
    var adopted := if io.fault then s else AdoptSecret(s, k, h.uid, h.request.userData, io.cascade);
    Effect(h.(pc := Poll), adopted, [Audit(id, UpdatesSecret, UserDataKeyOf(k), !io.fault)])
  }

  function AdvancePoll(cfg: Config, h: Handler, s: Store, io: Io): (h': Handler)
    ensures Follows(h, h') && h'.pc in {Cleanup, Wait}
  {
    var k := SandboxKeyOf(cfg, h);
    if io.fault || k !in s.sandboxes then Answer(h, Rejected(500))
    else
      var status := s.sandboxes[k].status;
      var ready := FindCondition(status.conditions, Ready);
      if ConditionTrue(status.conditions, Ready) && |status.ips| > 0 then
        Answer(h, Created(k.name, h.request.workloadRef.name, status.ips))
      else if ready.Some? && ready.value.status == False && ready.value.reason == RunnerFailed then
        Answer(h, Rejected(500))
      else h.(pc := Wait)
  }

  /** The deferred cleanup, after the reply has been written. */
  function AdvanceCleanup(cfg: Config, id: nat, h: Handler, s: Store, io: Io): (e: Effect)
    ensures e.store.classes == s.classes && e.store.nextUid == s.nextUid
    ensures e.handler == h.(pc := Done)
  {
    if h.createdHere && !h.completed then
      var k := SandboxKeyOf(cfg, h);
      Effect(h.(pc := Done), if io.fault then s else DeleteSandbox(s, k, io.cascade),
             [Audit(id, DeletesSandbox, k, !io.fault)])
    else Effect(h.(pc := Done), s, [])
  }

  /** A call of handler `id` at its own sandbox or userdata secret, and for a creation in the class of its grant. */
  predicate WithinGrant(cfg: Config, id: nat, h: Handler, call: Audit) {
    var k := SandboxKeyOf(cfg, h);
    && call.actor == id
    && call.key == (if call.verb.CreatesSandbox? || call.verb.DeletesSandbox? then k else UserDataKeyOf(k))
    && (call.verb.CreatesSandbox? ==> call.verb.className == h.grant.className)
  }

  function Advance(cfg: Config, id: nat, h: Handler, s: Store, io: Io): (e: Effect)
    ensures |e.calls| <= 1 && (e.calls != [] ==> WithinGrant(cfg, id, h, e.calls[0]))
  {
    match h.pc
    case CheckClass => Effect(AdvanceCheckClass(h, s, io), s, [])
    case ReadSandbox => Effect(AdvanceReadSandbox(cfg, h, s, io), s, [])
    case CreateSecret => AdvanceCreateSecret(cfg, id, h, s, io)
    case CreateSandbox => AdvanceCreateSandbox(cfg, id, h, s, io)
    case DropSecret => AdvanceDropSecret(cfg, id, h, s, io)
    case OwnSecret => AdvanceOwnSecret(cfg, id, h, s, io)
    case Poll => Effect(AdvancePoll(cfg, h, s, io), s, [])
    case Wait => Effect(if io.expired then Answer(h, Rejected(504)) else h.(pc := Poll), s, [])
    case Cleanup => AdvanceCleanup(cfg, id, h, s, io)
    case Done => Effect(h, s, [])
  }

  // ------------------------------------------------------------------ the whole system

  datatype Sys = Sys(store: Store, handlers: map<nat, Handler>, log: seq<Audit>)

  datatype Action =
    // the HTTP server
    | StartCreate(id: nat, token: string, request: Request, decoded: bool)
    | StepCreate(id: nat, io: Io)
    | HandleDelete(token: string, name: string, io: Io)
    // the controller
    | Reconcile(key: Key, turn: R.Turn)
    // the kubelet, the scheduler and pod removal from outside
    | Kubelet(key: Key, report: PodReport)
    | RemovePod(key: Key)
    // the operator and lazy garbage collection
    | PutSecret(key: Key, secret: Secret)
    | RemoveSecret(key: Key)
    | PutClass(name: string, sandboxClass: SandboxClass)
    | RemoveClass(name: string)
    | PutSandbox(key: Key, spec: SandboxSpec)
    | RemoveSandbox(key: Key, io: Io)
    | MarkDeleting(key: Key)

  /** A new request is admitted only under a grant; a refused one leaves no trace. */
  ghost function StepStart(cfg: Config, sys: Sys, a: Action): Sys
    requires a.StartCreate?
  {
    var grant := Authorize(cfg, sys.store, a.token);
    if a.id in sys.handlers || grant.None? then sys
    else sys.(handlers := sys.handlers[a.id := NewHandler(grant.value, a.request, a.decoded)])
  }

  ghost function StepHandler(cfg: Config, sys: Sys, id: nat, io: Io): Sys {
    if id !in sys.handlers then sys
    else
      var e := Advance(cfg, id, sys.handlers[id], sys.store, io);
      Sys(e.store, sys.handlers[id := e.handler], sys.log + e.calls)
  }

  /** `deleteSandbox`: the class check and the deletion are one step. */
  ghost function StepDelete(cfg: Config, s: Store, token: string, name: string, io: Io): Store {
    var grant := Authorize(cfg, s, token);
    if grant.None? || name == "" || '/' in name || io.fault then s
    else
      var k := Key(grant.value.namespace, name);
      if k !in s.sandboxes || s.sandboxes[k].spec.className != grant.value.className then s
      else DeleteSandbox(s, k, io.cascade)
  }

  /** Failed and Succeeded are terminal. */
  function Observed(pod: Pod, report: PodReport): Pod {
    pod.(report := if Terminal(pod.report.phase) then report.(phase := pod.report.phase) else report)
  }

  function StepKubelet(s: Store, k: Key, report: PodReport): Store {
    if k in s.pods then s.(pods := s.pods[k := Observed(s.pods[k], report)]) else s
  }

  /** Writing a class changes its generation; a class that is created starts at generation 1. */
  function StepPutClass(s: Store, name: string, sandboxClass: SandboxClass): Store {
    var generation := if name in s.classes then s.classes[name].generation + 1 else 1;
    s.(classes := s.classes[name := sandboxClass.(generation := generation)])
  }

  function StepMarkDeleting(s: Store, k: Key): Store {
    if k in s.sandboxes then s.(sandboxes := s.sandboxes[k := s.sandboxes[k].(deleting := true)]) else s
  }

  ghost function StepStore(cfg: Config, s: Store, a: Action): Store
    requires !a.StartCreate? && !a.StepCreate?
  {
    match a
    case HandleDelete(token, name, io) => StepDelete(cfg, s, token, name, io)
    case Reconcile(k, turn) => R.Reconcile(s, k, turn).state
    case Kubelet(k, report) => StepKubelet(s, k, report)
    case RemovePod(k) => s.(pods := s.pods - {k})
    case PutSecret(k, secret) => s.(secrets := s.secrets[k := secret])
    case RemoveSecret(k) => s.(secrets := s.secrets - {k})
    case PutClass(name, sandboxClass) => StepPutClass(s, name, sandboxClass)
    case RemoveClass(name) => s.(classes := s.classes - {name})
    case PutSandbox(k, spec) => if k in s.sandboxes || !ValidSpec(spec) then s else AddSandbox(s, k, spec)
    case RemoveSandbox(k, io) => DeleteSandbox(s, k, io.cascade)
    case MarkDeleting(k) => StepMarkDeleting(s, k)
  }

  ghost function Step(cfg: Config, sys: Sys, a: Action): Sys {
    if a.StartCreate? then StepStart(cfg, sys, a)
    else if a.StepCreate? then StepHandler(cfg, sys, a.id, a.io)
    else sys.(store := StepStore(cfg, sys.store, a))
  }

  /** The state after the first `i` actions of a run. */
  ghost function After(cfg: Config, start: Sys, acts: seq<Action>, i: nat): Sys
    requires i <= |acts|
  {
    if i == 0 then start else Step(cfg, After(cfg, start, acts, i - 1), acts[i - 1])
  }

  /** No request is in progress, and no stored sandbox claims to be ready. */
  ghost predicate Init(sys: Sys) {
    && sys.handlers == map[] && sys.log == []
    && (forall k :: k in sys.store.sandboxes ==>
          && ValidSpec(sys.store.sandboxes[k].spec)
          && sys.store.sandboxes[k].uid < sys.store.nextUid
          && !R.IsReady(sys.store.sandboxes[k]))
  }

  // ------------------------------------------------------------------ how one sandbox changes

  /** A sandbox as it is stored when it is created. */
  predicate Fresh(s: Store, s': Store, k: Key) {
    && k !in s.sandboxes && k in s'.sandboxes
    && s'.sandboxes[k] == NewSandbox(s.nextUid, s'.sandboxes[k].spec)
    && ValidSpec(s'.sandboxes[k].spec)
    && s'.nextUid == s.nextUid + 1
  }

  /** The sandbox at `k` is as before. */
  predicate Kept(s: Store, s': Store, k: Key) {
    (k in s.sandboxes <==> k in s'.sandboxes) && (k in s.sandboxes ==> s'.sandboxes[k] == s.sandboxes[k])
  }

  /** Only creating and cleaning up touch sandboxes, and only cleaning up touches pods. */
  lemma AdvanceFrame(cfg: Config, id: nat, h: Handler, s: Store, io: Io)
    ensures
      var e := Advance(cfg, id, h, s, io);
      && e.store.classes == s.classes
      && (h.pc != CreateSandbox && h.pc != Cleanup ==> e.store.sandboxes == s.sandboxes && e.store.nextUid == s.nextUid)
      && (h.pc != Cleanup ==> e.store.pods == s.pods)
  {
    match h.pc
    case CreateSecret =>
    case CreateSandbox =>
    case DropSecret =>
    case OwnSecret =>
    case Cleanup =>
    case _ =>
  }

  /** The secret at `q` is as before. */
  predicate KeptSecret(s: Store, s': Store, q: Key) {
    (q in s.secrets <==> q in s'.secrets) && (q in s.secrets ==> s'.secrets[q] == s.secrets[q])
  }

  /** Before its cleanup a handler touches no secret but its own userdata secret. */
  lemma AdvanceSecrets(cfg: Config, id: nat, h: Handler, s: Store, io: Io, q: Key)
    requires h.pc != Cleanup
    requires q != UserDataKeyOf(SandboxKeyOf(cfg, h))
    ensures KeptSecret(s, Advance(cfg, id, h, s, io).store, q)
  {
    match h.pc
    case CreateSecret =>
    case CreateSandbox =>
    case DropSecret =>
    case OwnSecret =>
    case _ =>
  }

  /** A handler keeps its grant and request, and only a poll answers 201. */
  lemma AdvanceHandler(cfg: Config, id: nat, h: Handler, s: Store, io: Io)
    ensures
      var h' := Advance(cfg, id, h, s, io).handler;
      && h'.grant == h.grant && h'.request == h.request
      && (h'.reply == h.reply || h'.pc == Cleanup)
      && (h'.reply != h.reply && h'.reply.value.Created? ==> h.pc == Poll)
      && (h'.pc == Poll || h'.pc == OwnSecret || h'.pc == Wait ==>
            h.pc == ReadSandbox || h.pc == CreateSandbox || h.pc == OwnSecret || h.pc == Poll || h.pc == Wait)
  {
    match h.pc
    case CheckClass =>
    case ReadSandbox =>
    case CreateSecret =>
    case CreateSandbox =>
    case DropSecret =>
    case OwnSecret =>
    case Poll =>
    case Wait =>
    case Cleanup =>
    case Done =>
  }

  /** How far a create request has come. */
  function Stage(pc: Pc): nat {
    match pc
    case CheckClass => 0
    case ReadSandbox => 1
    case CreateSecret => 2
    case CreateSandbox => 3
    case DropSecret => 4
    case OwnSecret => 4
    case Poll => 5
    case Wait => 5
    case Cleanup => 6
    case Done => 7
  }

  /** A handler's record of what it created changes only when it creates its sandbox. */
  lemma AdvanceMade(cfg: Config, id: nat, h: Handler, s: Store, io: Io)
    ensures
      var h' := Advance(cfg, id, h, s, io).handler;
      && SandboxKeyOf(cfg, h') == SandboxKeyOf(cfg, h)
      && (h.pc != CreateSandbox ==> h'.createdHere == h.createdHere && h'.uid == h.uid)
  {
    AdvanceHandler(cfg, id, h, s, io);
    match h.pc
    case CheckClass =>
    case ReadSandbox =>
    case CreateSecret =>
    case CreateSandbox =>
    case DropSecret =>
    case OwnSecret =>
    case Poll =>
    case Wait =>
    case Cleanup =>
    case Done =>
  }

  /** A request never goes back. */
  lemma AdvanceStage(cfg: Config, id: nat, h: Handler, s: Store, io: Io)
    ensures
      var h' := Advance(cfg, id, h, s, io).handler;
      Stage(h.pc) <= Stage(h'.pc) && (Stage(h.pc) <= 4 ==> Stage(h.pc) < Stage(h'.pc))
  {
    hide AdvanceCheckClass, AdvanceReadSandbox, AdvanceCreateSecret, AdvanceCreateSandbox, AdvanceDropSecret,
      AdvanceOwnSecret, AdvancePoll, AdvanceCleanup;
    match h.pc
    case CheckClass =>
    case ReadSandbox =>
    case CreateSecret =>
    case CreateSandbox =>
    case DropSecret =>
    case OwnSecret =>
    case Poll =>
    case Wait =>
    case Cleanup =>
    case Done =>
  }

  lemma AdvanceSandbox(cfg: Config, id: nat, h: Handler, s: Store, io: Io, k: Key)
    ensures
      var e := Advance(cfg, id, h, s, io);
      && (Kept(s, e.store, k) || k !in e.store.sandboxes || Fresh(s, e.store, k))
      && s.nextUid <= e.store.nextUid
      && (Fresh(s, e.store, k) ==>
          h.pc == CreateSandbox && k == SandboxKeyOf(cfg, h) && e.store.sandboxes[k].spec == SpecOf(cfg, h))
  {
    AdvanceFrame(cfg, id, h, s, io);
    if h.pc == CreateSandbox {
      assert Advance(cfg, id, h, s, io) == AdvanceCreateSandbox(cfg, id, h, s, io);
    } else if h.pc == Cleanup {
      assert Advance(cfg, id, h, s, io) == AdvanceCleanup(cfg, id, h, s, io);
    }
  }

  /**
   One step leaves the sandbox at `k` alone, removes it, creates it, marks it for deletion, or
   is a reconciliation of `k`, which changes its status only.
   */
  lemma SandboxStep(cfg: Config, sys: Sys, a: Action, k: Key)
    ensures
      var s, s' := sys.store, Step(cfg, sys, a).store;
      && s.nextUid <= s'.nextUid
      && (|| Kept(s, s', k)
          || k !in s'.sandboxes
          || Fresh(s, s', k)
          || (a == MarkDeleting(k) && k in s.sandboxes && s'.sandboxes[k] == s.sandboxes[k].(deleting := true))
          || (a.Reconcile? && a.key == k && k in s.sandboxes && k in s'.sandboxes
              && R.SameButStatus(s.sandboxes[k], s'.sandboxes[k])
              && s'.sandboxes[k] == R.ReconcileView(R.At(s, k), k, a.turn).state.sandbox.value))
  {
    hide Advance, Authorize;
    match a
    case StepCreate(id, io) =>
      if id in sys.handlers {
        AdvanceSandbox(cfg, id, sys.handlers[id], sys.store, io, k);
      }
    case Reconcile(q, turn) =>
      R.ReconcileFrame(sys.store, q, turn);
    case _ =>
  }

  /** One step leaves the pod at `k` alone, removes it, reports on it, or is a reconciliation of `k`. */
  lemma PodStep(cfg: Config, sys: Sys, a: Action, k: Key)
    ensures
      var s, s' := sys.store, Step(cfg, sys, a).store;
      || ((k in s'.pods <==> k in s.pods) && (k in s.pods ==> s'.pods[k] == s.pods[k]))
      || (k in s.pods && k !in s'.pods && !a.Reconcile?)
      || (a.Kubelet? && a.key == k && k in s.pods && k in s'.pods && s'.pods[k] == Observed(s.pods[k], a.report))
      || (a.Reconcile? && a.key == k && R.At(s', k).pod == R.ReconcileView(R.At(s, k), k, a.turn).state.pod)
  {
    match a
    case StepCreate(id, io) =>
      if id in sys.handlers {
        AdvanceFrame(cfg, id, sys.handlers[id], sys.store, io);
        if sys.handlers[id].pc == Cleanup {
          assert Advance(cfg, id, sys.handlers[id], sys.store, io) ==
            AdvanceCleanup(cfg, id, sys.handlers[id], sys.store, io);
        }
      }
    case Reconcile(q, turn) =>
      R.ReconcileFrame(sys.store, q, turn);
    case _ =>
  }
}
