/**
 Processes of the peer-pod node and their course, as functions of an arbitrary schedule of exits,
 timers and cancellations: the waits of `waitForPath`, the attempts of `startCAA`, and the order
 of events that `terminate` promises (cmd/peer-pod-node/main.go).
 */
module Processes {
  import opened Objects

  datatype Signal = Term | Kill

  /** What happened, in order. `Awaiting` marks the start of a wait in `terminate`. */
  datatype Event =
    | Started(pid: nat)
    | Exited(pid: nat)
    | Signalled(pid: nat, signal: Signal)
    | Awaiting(pid: nat)

  /** Which ready branch a select takes. */
  datatype Choice = Cancel | Expire | Continue

  /**
   One observation of the world: the processes that exit before it, whether the awaited path
   exists, whether starting a process fails, and the branch a select takes.
   */
  datatype Tick = Tick(exits: seq<nat>, path: bool, startFails: bool, choice: Choice)

  const CAA_NAME := "cloud-api-adaptor"
  const KUBELET_NAME := "kubelet"
  const CONTAINERD_NAME := "containerd"

  // ------------------------------------------------------------------ logs

  /** Running processes among `exits` exit, each once. */
  function Pass(log: seq<Event>, exits: seq<nat>): (r: seq<Event>)
    ensures OnlyExits(log, r)
    ensures log == [] ==> r == []
    ensures forall p :: Exited(p) in r ==> Exited(p) in log || p in exits
  {
    if exits == [] then log
    else
      var before := Pass(log, exits[..|exits| - 1]);
      var p := exits[|exits| - 1];
      if Started(p) in before && Exited(p) !in before then before + [Exited(p)] else before
  }

  /** The second log extends the first by exits of processes that had been started. */
  ghost predicate OnlyExits(before: seq<Event>, after: seq<Event>) {
    before <= after && forall i :: |before| <= i < |after| ==> after[i].Exited? && Started(after[i].pid) in before
  }

  lemma PrefixKeeps(before: seq<Event>, after: seq<Event>, e: Event)
    requires before <= after && e in before
    ensures e in after
  {
    var i :| 0 <= i < |before| && before[i] == e;
    assert after[i] == e;
  }

  lemma OnlyExitsKeeps(before: seq<Event>, after: seq<Event>)
    requires OnlyExits(before, after)
    ensures forall e :: e in before ==> e in after
    ensures forall e :: e in after && !e.Exited? ==> e in before
  {
    forall e | e in before
      ensures e in after
    {
      PrefixKeeps(before, after, e);
    }
    forall e | e in after && !e.Exited?
      ensures e in before
    {
      var i :| 0 <= i < |after| && after[i] == e;
      assert before[i] == e;
    }
  }

  /** The first process of a list that has exited. */
  function FirstExited(log: seq<Event>, processes: seq<nat>): (r: Option<nat>)
    ensures r.Some? ==> r.value in processes && Exited(r.value) in log
    ensures r.None? ==> forall p :: p in processes ==> Exited(p) !in log
  {
    if processes == [] then None
    else if Exited(processes[0]) in log then Some(processes[0])
    else FirstExited(log, processes[1..])
  }

  // ------------------------------------------------------------------ waits

  datatype WaitResult = Found | ProcessExited(pid: nat) | Cancelled | TimedOut | Unfinished

  /** What one look at the world decides: the path comes first, then the first finished process. */
  function Glance(log: seq<Event>, tick: Tick, processes: seq<nat>): Option<WaitResult> {
    if tick.path then Some(Found)
    else
      match FirstExited(log, processes)
      case Some(p) => Some(ProcessExited(p))
      case None =>
        match tick.choice
        case Cancel => Some(Cancelled)
        case Expire => Some(TimedOut)
        case Continue => None
  }

  /** How a wait ends, with the log and what is left of the schedule. */
  datatype Waited = Waited(result: WaitResult, log: seq<Event>, rest: seq<Tick>)

  /** The wait ends at the first look that decides. */
  function Watch(log: seq<Event>, schedule: seq<Tick>, processes: seq<nat>): (w: Waited)
    ensures |w.rest| <= |schedule| && (w.result.Unfinished? ==> w.rest == [])
    decreases |schedule|
  {
    if schedule == [] then Waited(Unfinished, log, [])
    else
      var now := Pass(log, schedule[0].exits);
      var seen := Glance(now, schedule[0], processes);
      if seen.Some? then Waited(seen.value, now, schedule[1..]) else Watch(now, schedule[1..], processes)
  }

  /** The log after the first `n` ticks, if nothing but exits happens. */
  function LogAfter(log: seq<Event>, schedule: seq<Tick>, n: nat): seq<Event>
    requires n <= |schedule|
  {
    if n == 0 then log else Pass(LogAfter(log, schedule, n - 1), schedule[n - 1].exits)
  }

  /** Tick `i` is the first whose look decides. */
  ghost predicate DecidesAt(log: seq<Event>, schedule: seq<Tick>, processes: seq<nat>, i: nat)
    requires i < |schedule|
  {
    && Glance(LogAfter(log, schedule, i + 1), schedule[i], processes).Some?
    && forall j :: 0 <= j < i ==> Glance(LogAfter(log, schedule, j + 1), schedule[j], processes).None?
  }

  lemma {:induction false} LogAfterHead(log: seq<Event>, schedule: seq<Tick>, n: nat)
    requires 0 < n <= |schedule|
    ensures LogAfter(log, schedule, n) == LogAfter(Pass(log, schedule[0].exits), schedule[1..], n - 1)
  {
    if n > 1 {
      LogAfterHead(log, schedule, n - 1);
    }
  }

  /** A wait has the result of its first deciding tick, and none only if no tick decides. */
  lemma {:induction false} WatchDecides(log: seq<Event>, schedule: seq<Tick>, processes: seq<nat>)
    ensures
      var w := Watch(log, schedule, processes);
      var used := |schedule| - |w.rest|;
      && w.log == LogAfter(log, schedule, used) && w.rest == schedule[used..]
      && (!w.result.Unfinished? ==>
            && used > 0 && DecidesAt(log, schedule, processes, used - 1)
            && Glance(w.log, schedule[used - 1], processes) == Some(w.result))
      && (w.result.Unfinished? ==> forall i :: 0 <= i < |schedule| ==> !DecidesAt(log, schedule, processes, i))
    decreases |schedule|
  {
    if schedule != [] {
      var now := Pass(log, schedule[0].exits);
      forall i | 0 < i <= |schedule|
        ensures LogAfter(log, schedule, i) == LogAfter(now, schedule[1..], i - 1)
      {
        LogAfterHead(log, schedule, i);
      }
      if Glance(now, schedule[0], processes).None? {
        WatchDecides(now, schedule[1..], processes);
        var rest := schedule[1..];
        forall i | 0 < i < |schedule|
          ensures DecidesAt(log, schedule, processes, i) <==> DecidesAt(now, rest, processes, i - 1)
        {
          DecidesLater(log, schedule, processes, i);
        }
      } else {
        assert LogAfter(log, schedule, 1) == now;
      }
    }
  }

  lemma DecidesLater(log: seq<Event>, schedule: seq<Tick>, processes: seq<nat>, i: nat)
    requires 0 < i < |schedule| && Glance(Pass(log, schedule[0].exits), schedule[0], processes).None?
    ensures DecidesAt(log, schedule, processes, i)
            <==> DecidesAt(Pass(log, schedule[0].exits), schedule[1..], processes, i - 1)
  {
    var now, rest := Pass(log, schedule[0].exits), schedule[1..];
    forall j | 0 < j <= |schedule|
      ensures LogAfter(log, schedule, j) == LogAfter(now, rest, j - 1)
    {
      LogAfterHead(log, schedule, j);
    }
    assert forall j :: 0 < j < |schedule| ==> schedule[j] == rest[j - 1];
    if DecidesAt(log, schedule, processes, i) {
      forall j | 0 <= j < i - 1
        ensures Glance(LogAfter(now, rest, j + 1), rest[j], processes).None?
      {
        assert Glance(LogAfter(log, schedule, j + 2), schedule[j + 1], processes).None?;
      }
    }
    if DecidesAt(now, rest, processes, i - 1) {
      forall j | 0 <= j < i
        ensures Glance(LogAfter(log, schedule, j + 1), schedule[j], processes).None?
      {
        if j > 0 {
          assert Glance(LogAfter(now, rest, j), rest[j - 1], processes).None?;
        }
      }
    }
  }

  // ------------------------------------------------------------------ bringing up the adaptor

  datatype CaaResult = Connected(pid: nat) | StartFailed | KubeletExited(caa: nat) | Stopped | GaveUp | CaaUnfinished

  /** What has happened, how many processes have been set up, and what the world is going to do. */
  datatype World = World(log: seq<Event>, count: nat, schedule: seq<Tick>)

  datatype Brought = Brought(result: CaaResult, world: World)

  datatype Awaited = Awaited(done: bool, log: seq<Event>, rest: seq<Tick>)

  /** Waits for a process without end. */
  function AwaitExit(log: seq<Event>, schedule: seq<Tick>, pid: nat): (a: Awaited)
    ensures |a.rest| <= |schedule| && (a.done <==> Exited(pid) in a.log)
    decreases |schedule|
  {
    if Exited(pid) in log || schedule == [] then Awaited(Exited(pid) in log, log, schedule)
    else AwaitExit(Pass(log, schedule[0].exits), schedule[1..], pid)
  }

  /** What becomes of an attempt once the wait for its socket is over. */
  function Settle(caa: nat, kubelet: nat, wait: Waited): (b: Brought)
    ensures |b.world.schedule| <= |wait.rest| && b.world.count == caa + 1 && !b.result.GaveUp?
  {
    var w := World(wait.log, caa + 1, wait.rest);
    match wait.result
    case Found => Brought(Connected(caa), w)
    case Unfinished => Brought(CaaUnfinished, w)
    case ProcessExited(p) => Brought(if p == kubelet then KubeletExited(caa) else Stopped, w)
    case _ =>
      var a := AwaitExit(wait.log + [Signalled(caa, Term)], wait.rest, caa);
      Brought(if a.done then Stopped else CaaUnfinished, World(a.log, caa + 1, a.rest))
  }

  /** The log with which the wait of an attempt begins. */
  function AttemptLog(w: World): seq<Event>
    requires w.schedule != []
  {
    Pass(w.log, w.schedule[0].exits) + [Started(w.count)]
  }

  /** One attempt: start the adaptor, wait for its socket or an exit, and else stop it again. */
  function Attempt(w: World, kubelet: nat): (b: Brought)
    requires w.schedule != []
    ensures |b.world.schedule| < |w.schedule| && b.world.count == w.count + 1 && !b.result.GaveUp?
  {
    if w.schedule[0].startFails then
      Brought(StartFailed, World(Pass(w.log, w.schedule[0].exits), w.count + 1, w.schedule[1..]))
    else Settle(w.count, kubelet, Watch(AttemptLog(w), w.schedule[1..], [w.count, kubelet]))
  }

  /** The world after one more tick. */
  function Pause(w: World): World
    requires w.schedule != []
  {
    World(Pass(w.log, w.schedule[0].exits), w.count, w.schedule[1..])
  }

  /** Attempts follow each other until one does not just stop, or time is up. */
  function Bring(w: World, kubelet: nat): Brought
    decreases |w.schedule|
  {
    if w.schedule == [] then Brought(CaaUnfinished, w)
    else
      var b := Attempt(w, kubelet);
      if !b.result.Stopped? then b
      else if b.world.schedule == [] then Brought(CaaUnfinished, b.world)
      else if b.world.schedule[0].choice != Continue then Brought(GaveUp, Pause(b.world))
      else Bring(Pause(b.world), kubelet)
  }

  /** The exact meaning of one look, over the tick and the log. */
  lemma GlanceIs(log: seq<Event>, tick: Tick, processes: seq<nat>)
    ensures
      var seen := Glance(log, tick, processes);
      var idle := forall p :: p in processes ==> Exited(p) !in log;
      && (seen == Some(Found) <==> tick.path)
      && (forall p :: seen == Some(ProcessExited(p)) <==>
            !tick.path && exists j :: 0 <= j < |processes| && FirstExitAt(log, processes, j) && processes[j] == p)
      && (seen == Some(Cancelled) <==> !tick.path && idle && tick.choice == Cancel)
      && (seen == Some(TimedOut) <==> !tick.path && idle && tick.choice == Expire)
      && (seen == None <==> !tick.path && idle && tick.choice == Continue)
      && seen != Some(Unfinished)
  {
    FirstExitedIs(log, processes);
  }

  /** Position `j` holds the first process of the list that has exited. */
  predicate FirstExitAt(log: seq<Event>, processes: seq<nat>, j: nat) {
    && j < |processes| && Exited(processes[j]) in log
    && forall m :: 0 <= m < j ==> Exited(processes[m]) !in log
  }

  lemma {:induction false} FirstExitedIs(log: seq<Event>, processes: seq<nat>)
    ensures FirstExited(log, processes) == None <==> forall p :: p in processes ==> Exited(p) !in log
    ensures forall j :: 0 <= j < |processes| && FirstExitAt(log, processes, j) ==>
      FirstExited(log, processes) == Some(processes[j])
    ensures FirstExited(log, processes).Some? ==>
      exists j :: 0 <= j < |processes| && FirstExitAt(log, processes, j)
                  && processes[j] == FirstExited(log, processes).value
  {
    if processes != [] {
      FirstExitedIs(log, processes[1..]);
      if Exited(processes[0]) in log {
        assert FirstExitAt(log, processes, 0);
      } else {
        forall j | 0 <= j < |processes| && FirstExitAt(log, processes, j)
          ensures FirstExited(log, processes) == Some(processes[j])
        {
          assert FirstExitAt(log, processes[1..], j - 1);
        }
        if FirstExited(log, processes).Some? {
          var j :| 0 <= j < |processes[1..]| && FirstExitAt(log, processes[1..], j)
                   && processes[1..][j] == FirstExited(log, processes).value;
          assert forall m :: 1 <= m < j + 1 ==> processes[m] == processes[1..][m - 1];
          assert FirstExitAt(log, processes, j + 1);
        }
      }
    }
  }

  /** A wait ends with a result exactly when the first tick that decides has this result. */
  lemma WatchEndsIff(log: seq<Event>, schedule: seq<Tick>, processes: seq<nat>, r: WaitResult)
    requires !r.Unfinished?
    ensures
      Watch(log, schedule, processes).result == r
      <==> exists i :: 0 <= i < |schedule| && DecidesAt(log, schedule, processes, i)
                       && Glance(LogAfter(log, schedule, i + 1), schedule[i], processes) == Some(r)
  {
    var wait := Watch(log, schedule, processes);
    var used := |schedule| - |wait.rest|;
    WatchDecides(log, schedule, processes);
    hide Watch, Glance, LogAfter, DecidesAt;
    if i :| 0 <= i < |schedule| && DecidesAt(log, schedule, processes, i)
            && Glance(LogAfter(log, schedule, i + 1), schedule[i], processes) == Some(r) {
      OneDecides(log, schedule, processes, i, used - 1);
    }
  }

  /** At the first tick that decides, there is no socket, the attempt has not exited, and the kubelet has. */
  ghost predicate KubeletDecides(log: seq<Event>, schedule: seq<Tick>, caa: nat, kubelet: nat) {
    exists i :: 0 <= i < |schedule| && DecidesAt(log, schedule, [caa, kubelet], i) && !schedule[i].path
                && Exited(caa) !in LogAfter(log, schedule, i + 1) && Exited(kubelet) in LogAfter(log, schedule, i + 1)
  }

  /** At the first tick that decides, the socket is there. */
  ghost predicate SocketDecides(log: seq<Event>, schedule: seq<Tick>, caa: nat, kubelet: nat) {
    exists i :: 0 <= i < |schedule| && DecidesAt(log, schedule, [caa, kubelet], i) && schedule[i].path
  }

  /** At the first tick that decides, there is no socket and the attempt has exited. */
  ghost predicate ExitDecides(log: seq<Event>, schedule: seq<Tick>, caa: nat, kubelet: nat) {
    exists i :: 0 <= i < |schedule| && DecidesAt(log, schedule, [caa, kubelet], i) && !schedule[i].path
                && Exited(caa) in LogAfter(log, schedule, i + 1)
  }

  /**
   At the first tick that decides there is no socket, neither process has exited, and the wait is
   cancelled or times out; the attempt is then signalled and exits some time later.
   */
  ghost predicate StopDecides(log: seq<Event>, schedule: seq<Tick>, caa: nat, kubelet: nat) {
    exists i :: 0 <= i < |schedule| && DecidesAt(log, schedule, [caa, kubelet], i)
                && StopsAt(LogAfter(log, schedule, i + 1), schedule, i, caa, kubelet)
  }

  ghost predicate StopsAt(now: seq<Event>, schedule: seq<Tick>, i: nat, caa: nat, kubelet: nat)
    requires i < |schedule|
  {
    && !schedule[i].path && schedule[i].choice != Continue && Exited(caa) !in now && Exited(kubelet) !in now
    && ExitsInTime(now + [Signalled(caa, Term)], schedule[i + 1..], caa)
  }

  /** The process has exited after some ticks of the schedule. */
  ghost predicate ExitsInTime(log: seq<Event>, schedule: seq<Tick>, pid: nat) {
    exists m :: 0 <= m <= |schedule| && Exited(pid) in LogAfter(log, schedule, m)
  }

  /** The attempt starts, and the kubelet's exit ends the wait for its socket. */
  ghost predicate LeavesAttempt(w: World, kubelet: nat) {
    && w.schedule != [] && !w.schedule[0].startFails
    && KubeletDecides(AttemptLog(w), w.schedule[1..], w.count, kubelet)
  }

  /** The decision of a look at an attempt and the kubelet. */
  lemma GlanceAtTwo(log: seq<Event>, tick: Tick, caa: nat, kubelet: nat)
    requires caa != kubelet
    ensures Glance(log, tick, [caa, kubelet]) == Some(ProcessExited(kubelet))
            <==> !tick.path && Exited(caa) !in log && Exited(kubelet) in log
    ensures Glance(log, tick, [caa, kubelet]) == Some(ProcessExited(caa)) <==> !tick.path && Exited(caa) in log
  {
    assert [caa, kubelet][1..] == [kubelet];
  }

  lemma WatchEndsWithKubeletIff(log: seq<Event>, schedule: seq<Tick>, caa: nat, kubelet: nat)
    requires caa != kubelet
    ensures Watch(log, schedule, [caa, kubelet]).result == ProcessExited(kubelet) <==>
      KubeletDecides(log, schedule, caa, kubelet)
  {
    WatchEndsIff(log, schedule, [caa, kubelet], ProcessExited(kubelet));
    hide Watch, Glance, LogAfter, DecidesAt;
    forall i | 0 <= i < |schedule|
      ensures Glance(LogAfter(log, schedule, i + 1), schedule[i], [caa, kubelet]) == Some(ProcessExited(kubelet))
              <==> !schedule[i].path && Exited(caa) !in LogAfter(log, schedule, i + 1)
                   && Exited(kubelet) in LogAfter(log, schedule, i + 1)
    {
      GlanceAtTwo(LogAfter(log, schedule, i + 1), schedule[i], caa, kubelet);
    }
  }

  lemma WatchFindsIff(log: seq<Event>, schedule: seq<Tick>, caa: nat, kubelet: nat)
    ensures Watch(log, schedule, [caa, kubelet]).result == Found <==> SocketDecides(log, schedule, caa, kubelet)
  {
    WatchEndsIff(log, schedule, [caa, kubelet], Found);
    hide Watch, Glance, LogAfter, DecidesAt;
    forall i | 0 <= i < |schedule|
      ensures Glance(LogAfter(log, schedule, i + 1), schedule[i], [caa, kubelet]) == Some(Found) <==> schedule[i].path
    {
      GlanceIs(LogAfter(log, schedule, i + 1), schedule[i], [caa, kubelet]);
    }
  }

  lemma WatchEndsWithAttemptIff(log: seq<Event>, schedule: seq<Tick>, caa: nat, kubelet: nat)
    requires caa != kubelet
    ensures Watch(log, schedule, [caa, kubelet]).result == ProcessExited(caa) <==>
      ExitDecides(log, schedule, caa, kubelet)
  {
    WatchEndsIff(log, schedule, [caa, kubelet], ProcessExited(caa));
    hide Watch, Glance, LogAfter, DecidesAt;
    forall i | 0 <= i < |schedule|
      ensures Glance(LogAfter(log, schedule, i + 1), schedule[i], [caa, kubelet]) == Some(ProcessExited(caa))
              <==> !schedule[i].path && Exited(caa) in LogAfter(log, schedule, i + 1)
    {
      GlanceAtTwo(LogAfter(log, schedule, i + 1), schedule[i], caa, kubelet);
    }
  }

  /** The attempt ends with the kubelet's exit, with its socket, or with a failed start in exactly these cases. */
  lemma AttemptLeavesIff(w: World, kubelet: nat)
    requires w.schedule != [] && kubelet != w.count
    ensures Attempt(w, kubelet).result.KubeletExited? <==> LeavesAttempt(w, kubelet)
    ensures Attempt(w, kubelet).result.KubeletExited? ==> Attempt(w, kubelet).result.caa == w.count
    ensures Attempt(w, kubelet).result.StartFailed? <==> w.schedule[0].startFails
    ensures Attempt(w, kubelet).result.Connected? <==>
      !w.schedule[0].startFails && SocketDecides(AttemptLog(w), w.schedule[1..], w.count, kubelet)
    ensures Attempt(w, kubelet).result.Connected? ==> Attempt(w, kubelet).result.pid == w.count
  {
    hide Watch, KubeletDecides, SocketDecides;
    if !w.schedule[0].startFails {
      WatchEndsWithKubeletIff(AttemptLog(w), w.schedule[1..], w.count, kubelet);
      WatchFindsIff(AttemptLog(w), w.schedule[1..], w.count, kubelet);
    }
  }

  /** Waiting for an exit ends exactly if the schedule holds it. */
  lemma {:induction false} AwaitExitIff(log: seq<Event>, schedule: seq<Tick>, pid: nat)
    ensures AwaitExit(log, schedule, pid).done <==> ExitsInTime(log, schedule, pid)
    decreases |schedule|
  {
    hide Pass;
    if Exited(pid) in log {
      assert Exited(pid) in LogAfter(log, schedule, 0);
    } else if schedule != [] {
      var now := Pass(log, schedule[0].exits);
      AwaitExitIff(now, schedule[1..], pid);
      forall m | 0 < m <= |schedule|
        ensures LogAfter(log, schedule, m) == LogAfter(now, schedule[1..], m - 1)
      {
        LogAfterHead(log, schedule, m);
      }
      hide LogAfter;
      if m :| 0 <= m <= |schedule[1..]| && Exited(pid) in LogAfter(now, schedule[1..], m) {
        assert Exited(pid) in LogAfter(log, schedule, m + 1);
      }
    }
  }

  /** A wait that is cancelled or times out, with what follows. */
  lemma StopDecidesIff(log: seq<Event>, schedule: seq<Tick>, caa: nat, kubelet: nat)
    requires caa != kubelet
    ensures
      var wait := Watch(log, schedule, [caa, kubelet]);
      (wait.result == Cancelled || wait.result == TimedOut)
      && AwaitExit(wait.log + [Signalled(caa, Term)], wait.rest, caa).done
      <==> StopDecides(log, schedule, caa, kubelet)
  {
    var wait := Watch(log, schedule, [caa, kubelet]);
    var used := |schedule| - |wait.rest|;
    var pair := [caa, kubelet];
    WatchDecides(log, schedule, pair);
    AwaitExitIff(wait.log + [Signalled(caa, Term)], wait.rest, caa);
    hide Watch, Glance, LogAfter, DecidesAt, AwaitExit, ExitsInTime;
    if used > 0 {
      GlanceIs(wait.log, schedule[used - 1], pair);
    }
    if i :| 0 <= i < |schedule| && DecidesAt(log, schedule, pair, i)
            && StopsAt(LogAfter(log, schedule, i + 1), schedule, i, caa, kubelet) {
      OneDecides(log, schedule, pair, i, used - 1);
    }
  }

  /** The attempt just stops exactly when it exits by itself, or is stopped and then exits. */
  lemma AttemptStopsIff(w: World, kubelet: nat)
    requires w.schedule != [] && kubelet != w.count
    ensures Attempt(w, kubelet).result.Stopped? <==>
      && !w.schedule[0].startFails
      && (|| ExitDecides(AttemptLog(w), w.schedule[1..], w.count, kubelet)
          || StopDecides(AttemptLog(w), w.schedule[1..], w.count, kubelet))
  {
    hide Watch, ExitDecides, StopDecides, AwaitExit;
    if !w.schedule[0].startFails {
      WatchReportsListed(AttemptLog(w), w.schedule[1..], [w.count, kubelet]);
      WatchEndsWithAttemptIff(AttemptLog(w), w.schedule[1..], w.count, kubelet);
      StopDecidesIff(AttemptLog(w), w.schedule[1..], w.count, kubelet);
    }
  }

  lemma OneDecides(log: seq<Event>, schedule: seq<Tick>, processes: seq<nat>, i: nat, j: nat)
    requires i < |schedule| && j < |schedule|
    requires DecidesAt(log, schedule, processes, i) && DecidesAt(log, schedule, processes, j)
    ensures i == j
  {
  }

  /** The world in which attempt `n` begins, if there is one; earlier attempts have stopped. */
  function BeforeAttempt(w: World, kubelet: nat, n: nat): Option<World>
    decreases n
  {
    if n == 0 then Some(w)
    else if w.schedule == [] then None
    else
      var b := Attempt(w, kubelet);
      if b.result.Stopped? && b.world.schedule != [] && b.world.schedule[0].choice == Continue
      then BeforeAttempt(Pause(b.world), kubelet, n - 1)
      else None
  }

  /** Attempt `n` is process `caa` and is left behind. */
  ghost predicate LeavesNth(w: World, kubelet: nat, n: nat, caa: nat) {
    var v := BeforeAttempt(w, kubelet, n);
    v.Some? && v.value.count == caa && LeavesAttempt(v.value, kubelet)
  }

  /** Attempt `n` begins and ends with the given result. */
  predicate EndsNth(w: World, kubelet: nat, n: nat, r: CaaResult) {
    var v := BeforeAttempt(w, kubelet, n);
    v.Some? && v.value.schedule != [] && Attempt(v.value, kubelet).result == r
  }

  /** Attempt `n` just stops, and in the pause after it time is up or the start is cancelled. */
  predicate GivesUpNth(w: World, kubelet: nat, n: nat) {
    var v := BeforeAttempt(w, kubelet, n);
    && v.Some? && v.value.schedule != []
    && var b := Attempt(v.value, kubelet);
       b.result.Stopped? && b.world.schedule != [] && b.world.schedule[0].choice != Continue
  }

  /** The whole start ends like its first attempt that does not just stop, or is given up in a pause. */
  lemma {:induction false} BringEndsIff(w: World, kubelet: nat, r: CaaResult)
    requires !r.Stopped? && !r.GaveUp? && !r.CaaUnfinished?
    ensures Bring(w, kubelet).result == r <==> exists n: nat :: EndsNth(w, kubelet, n, r)
    ensures Bring(w, kubelet).result.GaveUp? <==> exists n: nat :: GivesUpNth(w, kubelet, n)
    decreases |w.schedule|
  {
    hide Attempt;
    if w.schedule == [] {
      assert forall n: nat :: !EndsNth(w, kubelet, n, r) && !GivesUpNth(w, kubelet, n);
    } else {
      var b := Attempt(w, kubelet);
      assert EndsNth(w, kubelet, 0, r) <==> b.result == r;
      if b.result.Stopped? && b.world.schedule != [] && b.world.schedule[0].choice == Continue {
        var v := Pause(b.world);
        BringEndsIff(v, kubelet, r);
        assert Bring(w, kubelet) == Bring(v, kubelet);
        assert forall n: nat :: EndsNth(w, kubelet, n + 1, r) <==> EndsNth(v, kubelet, n, r);
        assert forall n: nat :: GivesUpNth(w, kubelet, n + 1) <==> GivesUpNth(v, kubelet, n);
        if n: nat :| EndsNth(w, kubelet, n, r) {
          assert EndsNth(v, kubelet, n - 1, r);
        }
        if n: nat :| EndsNth(v, kubelet, n, r) {
          assert EndsNth(w, kubelet, n + 1, r);
        }
        if n: nat :| GivesUpNth(w, kubelet, n) {
          assert GivesUpNth(v, kubelet, n - 1);
        }
        if n: nat :| GivesUpNth(v, kubelet, n) {
          assert GivesUpNth(w, kubelet, n + 1);
        }
      } else {
        assert forall n: nat :: n > 0 ==> !EndsNth(w, kubelet, n, r) && !GivesUpNth(w, kubelet, n);
        assert GivesUpNth(w, kubelet, 0) || forall n: nat :: !GivesUpNth(w, kubelet, n);
      }
    }
  }

  /** The adaptor is given up because of the kubelet exactly when some attempt is left behind. */
  lemma BringLeavesIff(w: World, kubelet: nat, caa: nat)
    requires kubelet < w.count
    ensures Bring(w, kubelet).result == KubeletExited(caa) <==> exists n: nat :: LeavesNth(w, kubelet, n, caa)
  {
    hide Attempt, LeavesAttempt, Bring, BeforeAttempt;
    BringEndsIff(w, kubelet, KubeletExited(caa));
    forall n: nat
      ensures EndsNth(w, kubelet, n, KubeletExited(caa)) <==> LeavesNth(w, kubelet, n, caa)
    {
      var v := BeforeAttempt(w, kubelet, n);
      if v.Some? {
        CountsUp(w, kubelet, n);
        LeavesNeedsTick(v.value, kubelet);
        if v.value.schedule != [] {
          AttemptLeavesIff(v.value, kubelet);
        }
      }
    }
  }

  lemma LeavesNeedsTick(w: World, kubelet: nat)
    ensures LeavesAttempt(w, kubelet) ==> w.schedule != []
  {
  }

  lemma {:induction false} CountsUp(w: World, kubelet: nat, n: nat)
    ensures BeforeAttempt(w, kubelet, n).Some? ==> BeforeAttempt(w, kubelet, n).value.count == w.count + n
    decreases n
  {
    hide Attempt;
    if n > 0 && w.schedule != [] && Attempt(w, kubelet).world.schedule != [] {
      CountsUp(Pause(Attempt(w, kubelet).world), kubelet, n - 1);
    }
  }

  /** The first failed start ends the whole start, and the first socket that is found connects it. */
  lemma BringConnectsIff(w: World, kubelet: nat, caa: nat)
    requires kubelet < w.count
    ensures Bring(w, kubelet).result.StartFailed? <==> exists n: nat :: StartFailsNth(w, kubelet, n)
    ensures Bring(w, kubelet).result == Connected(caa) <==> exists n: nat :: ConnectsNth(w, kubelet, n, caa)
  {
    hide Attempt, Bring, BeforeAttempt, SocketDecides;
    BringEndsIff(w, kubelet, StartFailed);
    BringEndsIff(w, kubelet, Connected(caa));
    forall n: nat
      ensures EndsNth(w, kubelet, n, StartFailed) <==> StartFailsNth(w, kubelet, n)
      ensures EndsNth(w, kubelet, n, Connected(caa)) <==> ConnectsNth(w, kubelet, n, caa)
    {
      var v := BeforeAttempt(w, kubelet, n);
      if v.Some? && v.value.schedule != [] {
        CountsUp(w, kubelet, n);
        AttemptLeavesIff(v.value, kubelet);
      }
    }
  }

  predicate StartFailsNth(w: World, kubelet: nat, n: nat) {
    var v := BeforeAttempt(w, kubelet, n);
    v.Some? && v.value.schedule != [] && v.value.schedule[0].startFails
  }

  ghost predicate ConnectsNth(w: World, kubelet: nat, n: nat, caa: nat) {
    var v := BeforeAttempt(w, kubelet, n);
    && v.Some? && v.value.count == caa && v.value.schedule != [] && !v.value.schedule[0].startFails
    && SocketDecides(AttemptLog(v.value), v.value.schedule[1..], caa, kubelet)
  }

  // ------------------------------------------------------------------ the whole program

  /** The world in which the adaptor is brought up, once the wait for containerd's socket is over. */
  function KubeletWorld(socket: Waited, hashFails: bool): Option<World> {
    if !socket.result.Found? || socket.rest == [] || socket.rest[0].startFails || hashFails then None
    else Some(World(Pass(socket.log, socket.rest[0].exits) + [Started(1)], 2, socket.rest[1..]))
  }

  /** That world for a whole run: containerd starts, its socket is found, and the kubelet starts. */
  function AdaptorWorld(schedule: seq<Tick>, hashFails: bool): Option<World> {
    if schedule == [] || schedule[0].startFails then None
    else KubeletWorld(Watch([Started(0)], schedule[1..], [0]), hashFails)
  }

  /** The adaptor is brought up exactly when all that comes before it goes well. */
  lemma AdaptorWorldIff(schedule: seq<Tick>, hashFails: bool)
    ensures AdaptorWorld(schedule, hashFails).Some? <==>
      && schedule != [] && !schedule[0].startFails && !hashFails
      && var rest := schedule[1..];
         exists i :: 0 <= i < |rest| - 1 && DecidesAt([Started(0)], rest, [0], i)
                     && rest[i].path && !rest[i + 1].startFails
  {
    if schedule != [] {
      var rest := schedule[1..];
      var socket := Watch([Started(0)], rest, [0]);
      var used := |rest| - |socket.rest|;
      WatchDecides([Started(0)], rest, [0]);
      hide Watch, DecidesAt, LogAfter, Glance;
      if used > 0 {
        GlanceIs(socket.log, rest[used - 1], [0]);
      }
      if i :| 0 <= i < |rest| - 1 && DecidesAt([Started(0)], rest, [0], i) && rest[i].path && !rest[i + 1].startFails {
        OneDecides([Started(0)], rest, [0], i, used - 1);
      }
    }
  }

  function LeftBy(r: CaaResult): Option<nat> {
    if r.KubeletExited? then Some(r.caa) else None
  }

  /** The adaptor attempt that a run leaves behind. */
  function Abandoned(schedule: seq<Tick>, hashFails: bool): Option<nat> {
    match AdaptorWorld(schedule, hashFails)
    case None => None
    case Some(w) => LeftBy(Bring(w, 1).result)
  }

  /** A run leaves an attempt behind exactly when it comes to start the adaptor and some attempt meets the condition. */
  lemma AbandonedIff(schedule: seq<Tick>, hashFails: bool, caa: nat)
    ensures
      Abandoned(schedule, hashFails) == Some(caa)
      <==> AdaptorWorld(schedule, hashFails).Some?
           && exists n: nat :: LeavesNth(AdaptorWorld(schedule, hashFails).value, 1, n, caa)
  {
    hide Bring, LeavesNth, Watch;
    if AdaptorWorld(schedule, hashFails).Some? {
      BringLeavesIff(AdaptorWorld(schedule, hashFails).value, 1, caa);
    }
  }

  /** The attempt that may still run when `startCAA` or one attempt ends. */
  function Survivor(r: CaaResult): Option<nat> {
    match r
    case Connected(pid) => Some(pid)
    case KubeletExited(caa) => Some(caa)
    case _ => None
  }

  // ------------------------------------------------------------------ properties of logs

  /** Of the processes below `base`, the second log adds exits only. */
  ghost predicate OldOnlyExit(before: seq<Event>, after: seq<Event>, base: nat) {
    before <= after && forall i :: |before| <= i < |after| && after[i].pid < base ==> after[i].Exited?
  }

  /** When a process from `base` on starts, every earlier one has exited. */
  ghost predicate SerialStarts(log: seq<Event>, base: nat) {
    forall j, p :: 0 <= j < |log| && log[j].Started? && log[j].pid >= base && p >= base && Started(p) in log[..j]
                   ==> Exited(p) in log[..j]
  }

  /** Every started process from `base` on has exited, except possibly one. */
  ghost predicate AllExitedBut(log: seq<Event>, base: nat, except: Option<nat>) {
    forall p :: p >= base && Started(p) in log && except != Some(p) ==> Exited(p) in log
  }

  /** All events are about the first `count` processes. */
  ghost predicate Within(log: seq<Event>, count: nat) {
    forall e :: e in log ==> e.pid < count
  }

  /** Starts are serial, all but one process from `base` on have exited, and no other process is known. */
  ghost predicate Orderly(log: seq<Event>, base: nat, except: Option<nat>, count: nat) {
    SerialStarts(log, base) && AllExitedBut(log, base, except) && Within(log, count)
  }

  lemma NothingStarted(log: seq<Event>, base: nat)
    requires Within(log, base)
    ensures Orderly(log, base, None, base)
  {
    forall j | 0 <= j < |log|
      ensures log[j].pid < base
    {
      assert log[j] in log;
    }
  }

  /** Extending a log without new starts keeps starts serial. */
  lemma GrowKeepsSerial(before: seq<Event>, after: seq<Event>, base: nat)
    requires before <= after && SerialStarts(before, base)
    requires forall i :: |before| <= i < |after| ==> !after[i].Started?
    ensures SerialStarts(after, base)
  {
    forall j, p | 0 <= j < |after| && after[j].Started? && after[j].pid >= base && p >= base && Started(p) in after[..j]
      ensures Exited(p) in after[..j]
    {
      assert after[..j] == before[..j] && after[j] == before[j];
    }
  }

  lemma ExitsKeep(before: seq<Event>, after: seq<Event>, base: nat, except: Option<nat>, count: nat)
    requires OnlyExits(before, after) && Orderly(before, base, except, count)
    ensures Orderly(after, base, except, count)
  {
    OnlyExitsKeeps(before, after);
    GrowKeepsSerial(before, after, base);
    forall e | e in after
      ensures e.pid < count
    {
      if e.Exited? && e !in before {
        assert Started(e.pid) in before;
        assert Started(e.pid).pid < count;
      }
    }
  }

  lemma SignalKeeps(before: seq<Event>, pid: nat, signal: Signal, base: nat, except: Option<nat>, count: nat)
    requires Orderly(before, base, except, count) && pid < count
    ensures Orderly(before + [Signalled(pid, signal)], base, except, count)
  {
    GrowKeepsSerial(before, before + [Signalled(pid, signal)], base);
  }

  lemma StartKeeps(before: seq<Event>, pid: nat, base: nat)
    requires Orderly(before, base, None, pid)
    ensures Orderly(before + [Started(pid)], base, Some(pid), pid + 1)
  {
    var after := before + [Started(pid)];
    forall j, p | 0 <= j < |after| && after[j].Started? && after[j].pid >= base && p >= base && Started(p) in after[..j]
      ensures Exited(p) in after[..j]
    {
      assert after[..j] == before[..j];
      if j == |before| {
        assert after[..j] == before;
      }
    }
  }

  // ------------------------------------------------------------------ the adaptor's attempts

  lemma {:induction false} WatchOnlyExits(log: seq<Event>, schedule: seq<Tick>, processes: seq<nat>)
    ensures OnlyExits(log, Watch(log, schedule, processes).log)
    decreases |schedule|
  {
    if schedule != [] && Glance(Pass(log, schedule[0].exits), schedule[0], processes).None? {
      var now := Pass(log, schedule[0].exits);
      WatchOnlyExits(now, schedule[1..], processes);
      OnlyExitsTransitive(log, now, Watch(now, schedule[1..], processes).log);
    }
  }

  lemma {:induction false} WatchReportsListed(log: seq<Event>, schedule: seq<Tick>, processes: seq<nat>)
    ensures
      var w := Watch(log, schedule, processes);
      w.result.ProcessExited? ==> w.result.pid in processes && Exited(w.result.pid) in w.log
    decreases |schedule|
  {
    if schedule != [] && Glance(Pass(log, schedule[0].exits), schedule[0], processes).None? {
      WatchReportsListed(Pass(log, schedule[0].exits), schedule[1..], processes);
    }
  }

  lemma {:induction false} AwaitExitOnlyExits(log: seq<Event>, schedule: seq<Tick>, pid: nat)
    ensures OnlyExits(log, AwaitExit(log, schedule, pid).log)
    decreases |schedule|
  {
    if Exited(pid) !in log && schedule != [] {
      var now := Pass(log, schedule[0].exits);
      AwaitExitOnlyExits(now, schedule[1..], pid);
      OnlyExitsTransitive(log, now, AwaitExit(now, schedule[1..], pid).log);
    }
  }

  /** What one attempt or the whole loop does to the log, seen from a number of processes `base`. */
  ghost predicate Brings(log: seq<Event>, b: Brought, kubelet: nat, base: nat) {
    var after, r := b.world.log, b.result;
    && OldOnlyExit(log, after, base)
    && SerialStarts(after, base) && Within(after, b.world.count)
    && (!r.CaaUnfinished? ==> AllExitedBut(after, base, Survivor(r)))
    && (r.Connected? ==> base <= r.pid < b.world.count && Started(r.pid) in after)
    && (r.KubeletExited? ==>
          Exited(kubelet) in after && base <= r.caa < b.world.count && forall s :: Signalled(r.caa, s) !in after)
  }

  lemma StoppedAttemptIsOrderly(wait: Waited, base: nat, caa: nat, kubelet: nat)
    requires Orderly(wait.log, base, Some(caa), caa + 1) && base <= caa
    requires wait.result.Cancelled? || wait.result.TimedOut?
    ensures Brings(wait.log, Settle(caa, kubelet, wait), kubelet, base)
  {
    var signalled := wait.log + [Signalled(caa, Term)];
    SignalKeeps(wait.log, caa, Term, base, Some(caa), caa + 1);
    AwaitExitOnlyExits(signalled, wait.rest, caa);
    ExitsKeep(signalled, AwaitExit(signalled, wait.rest, caa).log, base, Some(caa), caa + 1);
  }

  lemma SettledIsOrderly(wait: Waited, base: nat, caa: nat, kubelet: nat)
    requires Orderly(wait.log, base, Some(caa), caa + 1) && kubelet < base <= caa && Started(caa) in wait.log
    requires forall s :: Signalled(caa, s) !in wait.log
    requires wait.result.ProcessExited? ==> wait.result.pid in [caa, kubelet] && Exited(wait.result.pid) in wait.log
    ensures Brings(wait.log, Settle(caa, kubelet, wait), kubelet, base)
  {
    if wait.result.Cancelled? || wait.result.TimedOut? {
      StoppedAttemptIsOrderly(wait, base, caa, kubelet);
    }
  }

  lemma BringsAfter(log: seq<Event>, middle: seq<Event>, b: Brought, kubelet: nat, base: nat)
    requires OldOnlyExit(log, middle, base) && Brings(middle, b, kubelet, base)
    ensures Brings(log, b, kubelet, base)
  {
    var after := b.world.log;
    forall i | |log| <= i < |after| && after[i].pid < base
      ensures after[i].Exited?
    {
      if i < |middle| {
        assert after[i] == middle[i];
      }
    }
  }

  /** The log of an attempt right after its start, and after any exits since. */
  lemma AttemptLogIsOrderly(w: World, base: nat, after: seq<Event>)
    requires w.schedule != [] && base <= w.count && Orderly(w.log, base, None, w.count)
    requires OnlyExits(AttemptLog(w), after)
    ensures Orderly(after, base, Some(w.count), w.count + 1) && OldOnlyExit(w.log, after, base)
    ensures Started(w.count) in after && forall s :: Signalled(w.count, s) !in after
  {
    var caa, now := w.count, Pass(w.log, w.schedule[0].exits);
    ExitsKeep(w.log, now, base, None, caa);
    StartKeeps(now, caa, base);
    ExitsKeep(AttemptLog(w), after, base, Some(caa), caa + 1);
    OnlyExitsKeeps(AttemptLog(w), after);
  }

  lemma AttemptIsOrderly(w: World, kubelet: nat, base: nat)
    requires w.schedule != [] && kubelet < base <= w.count && Orderly(w.log, base, None, w.count)
    ensures Brings(w.log, Attempt(w, kubelet), kubelet, base)
  {
    hide Watch, Settle, AttemptLog;
    var caa, now := w.count, Pass(w.log, w.schedule[0].exits);
    ExitsKeep(w.log, now, base, None, caa);
    if !w.schedule[0].startFails {
      var wait := Watch(AttemptLog(w), w.schedule[1..], [caa, kubelet]);
      WatchOnlyExits(AttemptLog(w), w.schedule[1..], [caa, kubelet]);
      WatchReportsListed(AttemptLog(w), w.schedule[1..], [caa, kubelet]);
      AttemptLogIsOrderly(w, base, wait.log);
      SettledIsOrderly(wait, base, caa, kubelet);
      BringsAfter(w.log, wait.log, Settle(caa, kubelet, wait), kubelet, base);
    }
  }

  lemma {:induction false} BringIsOrderly(w: World, kubelet: nat, base: nat)
    requires kubelet < base <= w.count && Orderly(w.log, base, None, w.count)
    ensures Brings(w.log, Bring(w, kubelet), kubelet, base) && !Bring(w, kubelet).result.Stopped?
    decreases |w.schedule|
  {
    hide Attempt;
    if w.schedule != [] {
      AttemptIsOrderly(w, kubelet, base);
      var b := Attempt(w, kubelet);
      if b.result.Stopped? && b.world.schedule != [] {
        var v := Pause(b.world);
        ExitsKeep(b.world.log, v.log, base, None, v.count);
        assert OldOnlyExit(w.log, v.log, base);
        if b.world.schedule[0].choice == Continue {
          BringIsOrderly(v, kubelet, base);
          BringsAfter(w.log, v.log, Bring(v, kubelet), kubelet, base);
        }
      }
    }
  }

  lemma BringLeavesSome(w: World, kubelet: nat)
    requires kubelet < w.count
    ensures Bring(w, kubelet).result.KubeletExited? <==> exists n: nat, caa :: LeavesNth(w, kubelet, n, caa)
  {
    hide Bring, LeavesNth;
    var r := Bring(w, kubelet).result;
    if r.KubeletExited? {
      BringLeavesIff(w, kubelet, r.caa);
    }
    if n: nat, caa :| LeavesNth(w, kubelet, n, caa) {
      BringLeavesIff(w, kubelet, caa);
    }
  }

  // ------------------------------------------------------------------ termination

  /** The process has exited or has been sent SIGKILL. */
  predicate Ended(log: seq<Event>, p: nat) {
    Exited(p) in log || Signalled(p, Kill) in log
  }

  /** The second log extends the first without starts, and signals processes of the list only. */
  ghost predicate Tidy(before: seq<Event>, after: seq<Event>, processes: seq<nat>) {
    && before <= after
    && forall i :: |before| <= i < |after| ==> !after[i].Started? && (after[i].Signalled? ==> after[i].pid in processes)
  }

  /** SIGTERM to the started processes of the list, last first. */
  function Terms(log: seq<Event>, processes: seq<nat>): seq<Event> {
    if processes == [] then []
    else Terms(log, processes[1..]) + if Started(processes[0]) in log then [Signalled(processes[0], Term)] else []
  }

  /** Exactly the started processes of the list get SIGTERM. */
  lemma {:induction false} TermsReachStarted(log: seq<Event>, processes: seq<nat>, p: nat)
    ensures Signalled(p, Term) in Terms(log, processes) <==> p in processes && Started(p) in log
  {
    if processes != [] {
      TermsReachStarted(log, processes[1..], p);
    }
  }

  /** The started processes of the list, last first. */
  function LastFirst(log: seq<Event>, processes: seq<nat>): seq<nat> {
    if processes == [] then []
    else LastFirst(log, processes[1..]) + if Started(processes[0]) in log then [processes[0]] else []
  }

  /** What is put at the end of the list comes first. */
  lemma {:induction false} LastComesFirst(log: seq<Event>, processes: seq<nat>, p: nat)
    ensures
      LastFirst(log, processes + [p]) == (if Started(p) in log then [p] else []) + LastFirst(log, processes)
  {
    if processes == [] {
      assert [p][1..] == [];
    } else {
      assert (processes + [p])[1..] == processes[1..] + [p];
      LastComesFirst(log, processes[1..], p);
    }
  }

  lemma {:induction false} TermsAreLastFirst(log: seq<Event>, processes: seq<nat>)
    ensures |Terms(log, processes)| == |LastFirst(log, processes)|
    ensures forall i :: 0 <= i < |Terms(log, processes)| ==>
      Terms(log, processes)[i] == Signalled(LastFirst(log, processes)[i], Term)
  {
    if processes != [] {
      TermsAreLastFirst(log, processes[1..]);
    }
  }

  /** The processes that `terminate` has waited for, in order. */
  function Waits(log: seq<Event>): seq<nat> {
    if log == [] then []
    else
      var last := log[|log| - 1];
      Waits(log[..|log| - 1]) + if last.Awaiting? then [last.pid] else []
  }

  lemma {:induction false} WaitsSame(before: seq<Event>, after: seq<Event>)
    requires before <= after && forall i :: |before| <= i < |after| ==> !after[i].Awaiting?
    ensures Waits(after) == Waits(before)
    decreases |after|
  {
    if |before| < |after| {
      WaitsSame(before, after[..|after| - 1]);
    } else {
      assert before == after;
    }
  }

  lemma WaitsOnce(log: seq<Event>, p: nat)
    ensures Waits(log + [Awaiting(p)]) == Waits(log) + [p]
  {
    assert (log + [Awaiting(p)])[..|log|] == log;
  }

  lemma {:induction false} SameLastFirst(before: seq<Event>, after: seq<Event>, processes: seq<nat>)
    requires forall p :: Started(p) in after <==> Started(p) in before
    ensures LastFirst(after, processes) == LastFirst(before, processes)
  {
    if processes != [] {
      SameLastFirst(before, after, processes[1..]);
    }
  }

  lemma LastFirstStep(log: seq<Event>, processes: seq<nat>, i: nat)
    requires i < |processes|
    ensures
      LastFirst(log, processes[i..])
      == LastFirst(log, processes[i + 1..]) + if Started(processes[i]) in log then [processes[i]] else []
  {
    assert processes[i..][1..] == processes[i + 1..];
  }

  lemma NoneFirst(log: seq<Event>)
    ensures LastFirst(log, []) == []
  {
  }

  /** Waiting for the tail of a list first is waiting for a prefix of the reversed list. */
  lemma {:induction false} TailIsPrefix(log: seq<Event>, processes: seq<nat>, i: nat)
    requires i <= |processes|
    ensures LastFirst(log, processes[i..]) <= LastFirst(log, processes)
  {
    if i > 0 {
      assert processes[i..] == processes[1..][i - 1..];
      TailIsPrefix(log, processes[1..], i - 1);
    } else {
      assert processes[0..] == processes;
    }
  }

  lemma {:induction false} TermsHaveNoStarts(log: seq<Event>, processes: seq<nat>)
    ensures Tidy(log, log + Terms(log, processes), processes)
    ensures forall i :: 0 <= i < |Terms(log, processes)| ==>
      Terms(log, processes)[i].Signalled? && Terms(log, processes)[i].signal == Term
    ensures forall p :: Started(p) in log + Terms(log, processes) <==> Started(p) in log
  {
    if processes != [] {
      TermsHaveNoStarts(log, processes[1..]);
      var rest := Terms(log, processes[1..]);
      var all := Terms(log, processes);
      forall i | 0 <= i < |all|
        ensures all[i].Signalled? && all[i].signal == Term && all[i].pid in processes
      {
        if i < |rest| {
          assert all[i] == rest[i] == (log + rest)[|log| + i];
        }
      }
    }
  }

  /** One of the first `used` ticks lets the deadline pass. */
  ghost predicate Expired(schedule: seq<Tick>, used: nat)
    requires used <= |schedule|
  {
    exists i :: 0 <= i < used && schedule[i].choice == Expire
  }

  lemma ExpiredInSuffix(world: seq<Tick>, left: seq<Tick>, used: nat)
    requires |left| <= |world| && left == world[|world| - |left|..] && used <= |left|
    requires !Expired(world, |world| - |left|)
    ensures Expired(left, used) <==> Expired(world, |world| - |left| + used)
  {
    var gone := |world| - |left|;
    if i :| 0 <= i < used && left[i].choice == Expire {
      assert world[gone + i].choice == Expire;
    }
    if i :| 0 <= i < gone + used && world[i].choice == Expire {
      assert left[i - gone].choice == Expire;
    }
  }

  /** Every exit that the second log adds is in the schedule. */
  ghost predicate ExitsScheduled(before: seq<Event>, after: seq<Event>, schedule: seq<Tick>) {
    forall p :: Exited(p) in after ==> Exited(p) in before || exists i :: 0 <= i < |schedule| && p in schedule[i].exits
  }

  lemma NotYet(log: seq<Event>, schedule: seq<Tick>)
    ensures !Expired(schedule, 0) && ExitsScheduled(log, log, schedule)
  {
  }

  /** Events that are no exits add none. */
  lemma AddsNoExits(entered: seq<Event>, before: seq<Event>, after: seq<Event>, schedule: seq<Tick>)
    requires ExitsScheduled(entered, before, schedule) && before <= after
    requires forall i :: |before| <= i < |after| ==> !after[i].Exited?
    ensures ExitsScheduled(entered, after, schedule)
  {
    forall p | Exited(p) in after
      ensures Exited(p) in before
    {
      var i :| 0 <= i < |after| && after[i] == Exited(p);
      assert before[i] == Exited(p);
    }
  }

  lemma ScheduledInSuffix(entered: seq<Event>, middle: seq<Event>, after: seq<Event>, world: seq<Tick>, left: seq<Tick>)
    requires |left| <= |world| && left == world[|world| - |left|..]
    requires ExitsScheduled(entered, middle, world) && ExitsScheduled(middle, after, left)
    ensures ExitsScheduled(entered, after, world)
  {
    forall p | Exited(p) in after && Exited(p) !in entered
      ensures exists i :: 0 <= i < |world| && p in world[i].exits
    {
      if Exited(p) !in middle {
        var i :| 0 <= i < |left| && p in left[i].exits;
        assert p in world[|world| - |left| + i].exits;
      }
    }
  }

  predicate IsKill(e: Event) {
    e.Signalled? && e.signal == Kill
  }

  lemma ExitedStays(before: seq<Event>, after: seq<Event>)
    requires before <= after
    ensures forall p: nat :: Exited(p) in before ==> Exited(p) in after
  {
    forall p: nat | Exited(p) in before
      ensures Exited(p) in after
    {
      PrefixKeeps(before, after, Exited(p));
    }
  }

  lemma EndedStays(before: seq<Event>, after: seq<Event>)
    requires before <= after
    ensures forall p :: Ended(before, p) ==> Ended(after, p)
  {
    forall e | e in before
      ensures e in after
    {
      PrefixKeeps(before, after, e);
    }
  }

  lemma TidyExtends(entered: seq<Event>, middle: seq<Event>, after: seq<Event>, processes: seq<nat>)
    requires Tidy(entered, middle, processes) && (OnlyExits(middle, after) || Tidy(middle, after, processes))
    ensures Tidy(entered, after, processes)
  {
  }

  lemma StartedInTidy(entered: seq<Event>, after: seq<Event>, processes: seq<nat>)
    requires Tidy(entered, after, processes)
    ensures forall p :: Started(p) in after <==> Started(p) in entered
  {
    forall p | Started(p) in entered
      ensures Started(p) in after
    {
      PrefixKeeps(entered, after, Started(p));
    }
    forall p | Started(p) in after
      ensures Started(p) in entered
    {
      var i :| 0 <= i < |after| && after[i] == Started(p);
      assert entered[i] == Started(p);
    }
  }

  /** The adaptor attempt `p` was started, nobody has signalled it, and the kubelet has exited. */
  ghost predicate LeftBehind(names: seq<string>, log: seq<Event>, p: nat) {
    && p < |names| && names[p] == CAA_NAME
    && (forall s :: Signalled(p, s) !in log)
    && exists k: nat :: k < |names| && names[k] == KUBELET_NAME && Exited(k) in log
  }

  lemma TidyKeeps(before: seq<Event>, after: seq<Event>, processes: seq<nat>)
    requires Tidy(before, after, processes)
    ensures forall e :: e in before ==> e in after
    ensures forall p :: Started(p) in after ==> Started(p) in before
    ensures forall p, s :: p !in processes && Signalled(p, s) in after ==> Signalled(p, s) in before
  {
    StartedInTidy(before, after, processes);
    forall e | e in before
      ensures e in after
    {
      PrefixKeeps(before, after, e);
    }
    forall p, s | p !in processes && Signalled(p, s) in after
      ensures Signalled(p, s) in before
    {
      var i :| 0 <= i < |after| && after[i] == Signalled(p, s);
      assert before[i] == Signalled(p, s);
    }
  }

  /** Of the processes below `base`, none is started in between. */
  lemma NoOldStarts(before: seq<Event>, after: seq<Event>, base: nat)
    requires OldOnlyExit(before, after, base)
    ensures forall p: nat :: p < base && Started(p) in after ==> Started(p) in before
  {
    forall p: nat | p < base && Started(p) in after
      ensures Started(p) in before
    {
      var i :| 0 <= i < |after| && after[i] == Started(p);
      assert before[i] == Started(p);
    }
  }

  /**
   Every started process is in the list, in the order of starts, has exited, or is the abandoned
   adaptor attempt; that one is left behind.
   */
  ghost predicate Accounted(names: seq<string>, log: seq<Event>, finished: bool, processes: seq<nat>,
      abandoned: Option<nat>) {
    && Within(log, |names|)
    && (forall p :: p in processes ==> p < |names|) && InStartOrder(processes)
    && (finished ==> forall p: nat :: Started(p) in log && p !in processes && abandoned != Some(p) ==> Exited(p) in log)
    && (abandoned.Some? ==> LeftBehind(names, log, abandoned.value) && abandoned.value !in processes)
  }

  /** The list is in the order in which the processes were set up. */
  predicate InStartOrder(processes: seq<nat>) {
    forall i, j :: 0 <= i < j < |processes| ==> processes[i] < processes[j]
  }

  lemma OnlyContainerd(log: seq<Event>)
    requires OnlyExits([Started(0)], log)
    ensures Within(log, 1) && forall p: nat :: Started(p) in log ==> p == 0
  {
    NothingStarted([Started(0)], 1);
    ExitsKeep([Started(0)], log, 1, None, 1);
  }

  lemma OnlyExitsTransitive(a: seq<Event>, b: seq<Event>, c: seq<Event>)
    requires OnlyExits(a, b) && OnlyExits(b, c)
    ensures OnlyExits(a, c)
  {
    OnlyExitsKeeps(a, b);
  }
}
