/**
 `createSandbox` in internal/server/server.go as it is written: early returns, a poll loop and
 a deferred cleanup. The method is proved to make exactly the calls, with exactly the effects,
 of the handler machine in module Lifecycle. A script supplies, for each API call, the store
 the call finds and how it is answered, so the environment may do anything between calls.
 */
module Server {
  import opened Objects
  import opened Conditions
  import opened Access
  import opened Lifecycle

  datatype Slot = Slot(store: Store, io: Io)

  /** What one call leaves behind: the store and the logged writes. */
  datatype Mark = Mark(store: Store, calls: seq<Audit>)

  /** The machine after the first `n` slots of a script. */
  function HandlerAfter(cfg: Config, id: nat, h: Handler, script: seq<Slot>, n: nat): Handler
    requires n <= |script|
  {
    if n == 0 then h
    else Advance(cfg, id, HandlerAfter(cfg, id, h, script, n - 1), script[n - 1].store, script[n - 1].io).handler
  }

  /** What the machine leaves behind after each of the first `n` slots. */
  function MarksAfter(cfg: Config, id: nat, h: Handler, script: seq<Slot>, n: nat): seq<Mark>
    requires n <= |script|
  {
    if n == 0 then []
    else
      var e := Advance(cfg, id, HandlerAfter(cfg, id, h, script, n - 1), script[n - 1].store, script[n - 1].io);
      MarksAfter(cfg, id, h, script, n - 1) + [Mark(e.store, e.calls)]
  }

  /** The script answers every call of the request, up to its end. */
  predicate Completes(cfg: Config, id: nat, h: Handler, script: seq<Slot>) {
    HandlerAfter(cfg, id, h, script, |script|).pc == Done
  }

  /** `n` calls have been made, with the machine's effects, and the machine is in state `now`. */
  ghost predicate InStep(cfg: Config, id: nat, h: Handler, script: seq<Slot>, marks: seq<Mark>, now: Handler) {
    && |marks| <= |script| && Completes(cfg, id, h, script)
    && marks == MarksAfter(cfg, id, h, script, |marks|)
    && now == HandlerAfter(cfg, id, h, script, |marks|)
  }

  lemma OneMore(cfg: Config, id: nat, h: Handler, script: seq<Slot>, n: nat)
    requires n < |script|
    ensures
      var e := Advance(cfg, id, HandlerAfter(cfg, id, h, script, n), script[n].store, script[n].io);
      && HandlerAfter(cfg, id, h, script, n + 1) == e.handler
      && MarksAfter(cfg, id, h, script, n + 1) == MarksAfter(cfg, id, h, script, n) + [Mark(e.store, e.calls)]
  {
  }

  lemma HasSlot(cfg: Config, id: nat, h: Handler, script: seq<Slot>, marks: seq<Mark>, now: Handler)
    requires InStep(cfg, id, h, script, marks, now) && now.pc != Done
    ensures |marks| < |script|
  {
  }

  /** A machine that is not done has another slot; answering it is one step. */
  lemma StepInStep(cfg: Config, id: nat, h: Handler, script: seq<Slot>, marks: seq<Mark>, now: Handler)
    requires InStep(cfg, id, h, script, marks, now) && now.pc != Done
    ensures |marks| < |script|
    ensures
      var slot := script[|marks|];
      var e := Advance(cfg, id, now, slot.store, slot.io);
      InStep(cfg, id, h, script, marks + [Mark(e.store, e.calls)], e.handler)
  {
    HasSlot(cfg, id, h, script, marks, now);
    OneMore(cfg, id, h, script, |marks|);
    var e := Advance(cfg, id, now, script[|marks|].store, script[|marks|].io);
    assert |marks + [Mark(e.store, e.calls)]| == |marks| + 1;
  }

  /** From the class check to the identity check of an existing sandbox. */
  method Look(cfg: Config, id: nat, grant: Grant, request: Request, decoded: bool, script: seq<Slot>)
    returns (marks: seq<Mark>, reply: Option<Reply>, found: bool)
    requires Completes(cfg, id, NewHandler(grant, request, decoded), script)
    ensures
      var h := NewHandler(grant, request, decoded);
      InStep(cfg, id, h, script, marks,
             if reply.Some? then Answer(h, reply.value) else h.(pc := if found then Poll else CreateSecret))
    ensures reply.Some? ==> reply.value.Rejected?
  {
    ghost var h := NewHandler(grant, request, decoded);
    found := false;
    StepInStep(cfg, id, h, script, [], h);
    var s, io := script[0].store, script[0].io;
    marks := [Mark(s, [])];
    if io.fault || grant.className !in s.classes {
      return marks, Some(Rejected(503)), false;
    }
    if !decoded || request.workloadRef.name == "" || request.sandboxID == "" || request.userData == "" {
      return marks, Some(Rejected(400)), false;
    }
    var k := Key(grant.namespace, cfg.nameOf(request.sandboxID));
    StepInStep(cfg, id, h, script, marks, h.(pc := ReadSandbox));
    s, io := script[1].store, script[1].io;
    marks := marks + [Mark(s, [])];
    if io.fault {
      return marks, Some(Rejected(500)), false;
    }
    if k !in s.sandboxes {
      return marks, None, false;
    }
    var spec := s.sandboxes[k].spec;
    if spec.sandboxID != request.sandboxID || spec.className != grant.className ||
      spec.workloadRef != request.workloadRef {
      return marks, Some(Rejected(409)), false;
    }
    return marks, None, true;
  }

  /** Creation of the userdata secret; one that already exists is taken as it is. */
  method MakeSecret(cfg: Config, id: nat, secretKey: Key, userData: string, script: seq<Slot>, before: seq<Mark>,
    ghost h: Handler, ghost now: Handler) returns (marks: seq<Mark>, ok: bool)
    requires InStep(cfg, id, h, script, before, now) && now.pc == CreateSecret
    requires secretKey == UserDataKeyOf(SandboxKeyOf(cfg, now)) && userData == now.request.userData
    ensures InStep(cfg, id, h, script, marks, if ok then now.(pc := CreateSandbox) else Answer(now, Rejected(500)))
  {
    StepInStep(cfg, id, h, script, before, now);
    var s, io := script[|before|].store, script[|before|].io;
    if io.fault {
      return before + [Mark(s, [Audit(id, CreatesSecret, secretKey, false)])], false;
    }
    var absent := secretKey !in s.secrets;
    if absent {
      s := s.(secrets := s.secrets[secretKey := Secret(map[], map[UserData := userData], None, true)]);
    }
    return before + [Mark(s, [Audit(id, CreatesSecret, secretKey, absent)])], true;
  }

  /** Creation of the sandbox object. */
  method MakeSandbox(cfg: Config, id: nat, k: Key, spec: SandboxSpec, script: seq<Slot>, before: seq<Mark>,
    ghost h: Handler, ghost now: Handler) returns (marks: seq<Mark>, createdHere: bool, uid: nat)
    requires InStep(cfg, id, h, script, before, now) && now.pc == CreateSandbox
    requires k == SandboxKeyOf(cfg, now) && spec == SpecOf(cfg, now)
    ensures InStep(cfg, id, h, script, marks,
                   if createdHere then now.(pc := OwnSecret, createdHere := true, uid := uid)
                     else now.(pc := DropSecret))
    ensures !createdHere ==> uid == 0
  {
    CreateSandboxInStep(cfg, id, h, script, before, now);
    var s, io := script[|before|].store, script[|before|].io;
    createdHere := !io.fault && k !in s.sandboxes && ValidSpec(spec);
    uid := if createdHere then s.nextUid else 0;
    if createdHere {
      s := AddSandbox(s, k, spec);
    }
    marks := before + [Mark(s, [Audit(id, CreatesSandbox(spec.className), k, createdHere)])];
  }

  lemma CreateSandboxInStep(cfg: Config, id: nat, h: Handler, script: seq<Slot>, marks: seq<Mark>, now: Handler)
    requires InStep(cfg, id, h, script, marks, now) && now.pc == CreateSandbox
    ensures |marks| < |script|
    ensures
      var s, io := script[|marks|].store, script[|marks|].io;
      var k, spec := SandboxKeyOf(cfg, now), SpecOf(cfg, now);
      var verb := CreatesSandbox(now.grant.className);
      if io.fault || k in s.sandboxes || !ValidSpec(spec)
      then InStep(cfg, id, h, script, marks + [Mark(s, [Audit(id, verb, k, false)])], now.(pc := DropSecret))
      else InStep(cfg, id, h, script, marks + [Mark(AddSandbox(s, k, spec), [Audit(id, verb, k, true)])],
                  now.(pc := OwnSecret, createdHere := true, uid := s.nextUid))
  {
    StepInStep(cfg, id, h, script, marks, now);
    var s, io := script[|marks|].store, script[|marks|].io;
    assert Advance(cfg, id, now, s, io) == AdvanceCreateSandbox(cfg, id, now, s, io);
  }

  /** The undo of the secret when the sandbox could not be created. */
  method DropUserData(cfg: Config, id: nat, secretKey: Key, script: seq<Slot>, before: seq<Mark>,
    ghost h: Handler, ghost now: Handler) returns (marks: seq<Mark>)
    requires InStep(cfg, id, h, script, before, now) && now.pc == DropSecret
    requires secretKey == UserDataKeyOf(SandboxKeyOf(cfg, now))
    ensures InStep(cfg, id, h, script, marks, Answer(now, Rejected(500)))
  {
    StepInStep(cfg, id, h, script, before, now);
    var s, io := script[|before|].store, script[|before|].io;
    if !io.fault {
      s := s.(secrets := s.secrets - {secretKey});
    }
    return before + [Mark(s, [Audit(id, DeletesSecret, secretKey, !io.fault)])];
  }

  /** The owner reference of the secret. */
  method OwnUserData(cfg: Config, id: nat, k: Key, secretKey: Key, uid: nat, userData: string, script: seq<Slot>,
      before: seq<Mark>,
    ghost h: Handler, ghost now: Handler) returns (marks: seq<Mark>)
    requires InStep(cfg, id, h, script, before, now) && now.pc == OwnSecret
    requires k == SandboxKeyOf(cfg, now) && secretKey == UserDataKeyOf(k) && uid == now.uid &&
      userData == now.request.userData
    ensures InStep(cfg, id, h, script, marks, now.(pc := Poll))
  {
    StepInStep(cfg, id, h, script, before, now);
    var s, io := script[|before|].store, script[|before|].io;
    if !io.fault {
      s := AdoptSecret(s, k, uid, userData, io.cascade);
    }
    return before + [Mark(s, [Audit(id, UpdatesSecret, secretKey, !io.fault)])];
  }

  /** The branch for a sandbox that does not exist yet. */
  method Make(cfg: Config, id: nat, grant: Grant, request: Request, script: seq<Slot>, before: seq<Mark>,
      ghost h: Handler)
    returns (marks: seq<Mark>, createdHere: bool, uid: nat)
    requires h == NewHandler(grant, request, h.decoded)
    requires InStep(cfg, id, h, script, before, h.(pc := CreateSecret))
    ensures InStep(cfg, id, h, script, marks,
                   if createdHere then h.(pc := Poll, createdHere := true, uid := uid) else Answer(h, Rejected(500)))
    ensures !createdHere ==> uid == 0
  {
    var name := cfg.nameOf(request.sandboxID);
    var k, secretKey := Key(grant.namespace, name), Key(grant.namespace, name + "-userdata");
    var ok;
    marks, ok := MakeSecret(cfg, id, secretKey, request.userData, script, before, h, h.(pc := CreateSecret));
    if !ok {
      return marks, false, 0;
    }
    var spec := SandboxSpec(request.workloadRef, request.sandboxID, secretKey.name, grant.className,
      if request.vcpus <= 0 then 2 else request.vcpus,
      if request.memoryMiB <= 0 then 2048 else request.memoryMiB,
      request.arch);
    marks, createdHere, uid := MakeSandbox(cfg, id, k, spec, script, marks, h, h.(pc := CreateSandbox));
    if !createdHere {
      marks := DropUserData(cfg, id, secretKey, script, marks, h, h.(pc := DropSecret));
      return;
    }
    marks := OwnUserData(cfg, id, k, secretKey, uid, request.userData, script, marks, h,
                         h.(pc := OwnSecret, createdHere := true, uid := uid));
  }

  /** One round of the poll loop up to the select. */
  method PollOnce(cfg: Config, id: nat, k: Key, name: string, script: seq<Slot>, before: seq<Mark>,
    ghost h: Handler, ghost now: Handler) returns (marks: seq<Mark>, reply: Option<Reply>)
    requires InStep(cfg, id, h, script, before, now) && now.pc == Poll
    requires k == SandboxKeyOf(cfg, now) && name == now.request.workloadRef.name
    ensures |marks| == |before| + 1
    ensures InStep(cfg, id, h, script, marks, if reply.Some? then Answer(now, reply.value) else now.(pc := Wait))
  {
    StepInStep(cfg, id, h, script, before, now);
    var s, io := script[|before|].store, script[|before|].io;
    marks := before + [Mark(s, [])];
    if io.fault || k !in s.sandboxes {
      return marks, Some(Rejected(500));
    }
    var status := s.sandboxes[k].status;
    var condition := ConditionByType(status.conditions, Ready);
    if condition.Some? && condition.value.status == True && |status.ips| > 0 {
      return marks, Some(Created(k.name, name, status.ips));
    }
    if condition.Some? && condition.value.status == False && condition.value.reason == RunnerFailed {
      return marks, Some(Rejected(500));
    }
    return marks, None;
  }

  /** The select between an expired request and the next round. */
  method Pause(cfg: Config, id: nat, script: seq<Slot>, before: seq<Mark>, ghost h: Handler, ghost now: Handler)
    returns (marks: seq<Mark>, expired: bool)
    requires InStep(cfg, id, h, script, before, now) && now.pc == Wait
    ensures |marks| == |before| + 1
    ensures InStep(cfg, id, h, script, marks, if expired then Answer(now, Rejected(504)) else now.(pc := Poll))
  {
    StepInStep(cfg, id, h, script, before, now);
    var slot := script[|before|];
    return before + [Mark(slot.store, [])], slot.io.expired;
  }

  /** The poll loop. */
  method AwaitReady(cfg: Config, id: nat, k: Key, name: string, script: seq<Slot>, before: seq<Mark>,
    ghost h: Handler, ghost now: Handler) returns (marks: seq<Mark>, reply: Reply)
    requires InStep(cfg, id, h, script, before, now) && now.pc == Poll
    requires k == SandboxKeyOf(cfg, now) && name == now.request.workloadRef.name
    ensures InStep(cfg, id, h, script, marks, Answer(now, reply))
  {
    marks := before;
    while true
      invariant InStep(cfg, id, h, script, marks, now)
      decreases |script| - |marks|
    {
      var answer, expired;
      marks, answer := PollOnce(cfg, id, k, name, script, marks, h, now);
      if answer.Some? {
        return marks, answer.value;
      }
      marks, expired := Pause(cfg, id, script, marks, h, now.(pc := Wait));
      if expired {
        return marks, Rejected(504);
      }
    }
  }

  /** The deferred cleanup. */
  method Defer(cfg: Config, id: nat, k: Key, createdHere: bool, completed: bool, script: seq<Slot>, before: seq<Mark>,
    ghost h: Handler, ghost now: Handler) returns (marks: seq<Mark>)
    requires InStep(cfg, id, h, script, before, now) && now.pc == Cleanup
    requires k == SandboxKeyOf(cfg, now) && createdHere == now.createdHere && completed == now.completed
    ensures InStep(cfg, id, h, script, marks, now.(pc := Done))
  {
    StepInStep(cfg, id, h, script, before, now);
    var s, io := script[|before|].store, script[|before|].io;
    if !createdHere || completed {
      return before + [Mark(s, [])];
    }
    if !io.fault {
      s := DeleteSandbox(s, k, io.cascade);
    }
    return before + [Mark(s, [Audit(id, DeletesSandbox, k, !io.fault)])];
  }

  /**
   The whole request. Its reply, its calls and the stores they leave behind are those of the
   handler machine, which has then finished.
   */
  method CreateSandboxRequest(cfg: Config, id: nat, grant: Grant, request: Request, decoded: bool, script: seq<Slot>)
    returns (reply: Reply, marks: seq<Mark>)
    requires Completes(cfg, id, NewHandler(grant, request, decoded), script)
    ensures |marks| <= |script|
    ensures
      var h := NewHandler(grant, request, decoded);
      var end := HandlerAfter(cfg, id, h, script, |marks|);
      && end.pc == Done && end.reply == Some(reply)
      && marks == MarksAfter(cfg, id, h, script, |marks|)
  {
    ghost var h := NewHandler(grant, request, decoded);
    var k := Key(grant.namespace, cfg.nameOf(request.sandboxID));
    var createdHere, uid := false, 0;
    var early, found;
    marks, early, found := Look(cfg, id, grant, request, decoded, script);
    if early.None? && !found {
      marks, createdHere, uid := Make(cfg, id, grant, request, script, marks, h);
      if !createdHere {
        early := Some(Rejected(500));
      }
    }
    ghost var now := h.(createdHere := createdHere, uid := uid);
    if early.Some? {
      reply := early.value;
    } else {
      marks, reply := AwaitReady(cfg, id, k, request.workloadRef.name, script, marks, h, now.(pc := Poll));
    }
    marks := Defer(cfg, id, k, createdHere, reply.Created?, script, marks, h, Answer(now, reply));
  }

  // ------------------------------------------------------------------ DELETE

  /** How the two calls of a delete request are answered. */
  datatype DeleteIo = DeleteIo(getFails: bool, deleteFails: bool, cascade: bool)

  /**
   `deleteSandbox`, with check and deletion in one step. Under a grant it has the effect of
   the system's delete step. It answers 403 exactly for a sandbox of another class in the
   granted namespace, 500 exactly when a call it needs fails, and after a 204 there is no sandbox
   of that name in the namespace.
   */
  method DeleteSandboxRequest(cfg: Config, s: Store, token: string, grant: Grant, name: string, io: DeleteIo)
    returns (code: int, after: Store)
    requires Authorize(cfg, s, token) == Some(grant)
    ensures after == StepDelete(cfg, s, token, name, Io(io.getFails || io.deleteFails, io.cascade, false))
    ensures code == 400 <==> name == "" || '/' in name
    ensures code == 403 <==> name != "" && '/' !in name && !io.getFails
                             && Key(grant.namespace, name) in s.sandboxes
                             && s.sandboxes[Key(grant.namespace, name)].spec.className != grant.className
    ensures code == 500 <==> name != "" && '/' !in name
                             && (io.getFails
                                 || (&& io.deleteFails && Key(grant.namespace, name) in s.sandboxes
                                     && s.sandboxes[Key(grant.namespace, name)].spec.className == grant.className))
    ensures code == 204 ==> Key(grant.namespace, name) !in after.sandboxes
    ensures code != 204 ==> code in {400, 403, 500} && after == s
  {
    if name == "" || '/' in name {
      return 400, s;
    }
    var k := Key(grant.namespace, name);
    if io.getFails {
      return 500, s;
    }
    if k !in s.sandboxes {
      return 204, s;
    }
    if s.sandboxes[k].spec.className != grant.className {
      return 403, s;
    }
    if io.deleteFails {
      return 500, s;
    }
    return 204, DeleteSandbox(s, k, io.cascade);
  }

  /**
   A name that only another namespace has is not rejected: the request answers 204, and the
   sandbox of that name stays where it is.
   */
  method DeleteOutsideNamespace(spec: SandboxSpec) returns (code: int, before: Store, after: Store)
    ensures before.sandboxes.Keys == {Key("tenant-b", "box")}
    ensures code == 204 && after == before
  {
    var cfg := Config("tenant-a", "standard", "secret", "", id => id);
    before := Store(map[Key("tenant-b", "box") := NewSandbox(0, spec)], map[], map[], map[], 1);
    code, after := DeleteSandboxRequest(
      cfg, before, "secret", Grant("standard", "tenant-a"), "box", DeleteIo(false, false, true));
  }
}
