/**
 Process supervision in the peer-pod node: `start`, `waitForPath`, `startCAA`, `terminate` and
 `run` in cmd/peer-pod-node/main.go, against an arbitrary schedule of process exits, timers
 and cancellations.
 */
module Supervision {
  import opened Objects
  import opened Processes

  class Host {
    /** Names of all processes set up so far; the index is the process. */
    var names: seq<string>
    var log: seq<Event>
    /** What the world is going to do; a call that exhausts it has not returned yet. */
    var schedule: seq<Tick>

    method Next() returns (t: Tick)
      requires schedule != []
      modifies this`schedule, this`log
      ensures t == old(schedule)[0] && schedule == old(schedule)[1..]
      ensures log == Pass(old(log), t.exits)
    {
      t := schedule[0];
      schedule := schedule[1..];
      log := Pass(log, t.exits);
    }

    /** `command` followed by `start`. */
    method Start(name: string, fails: bool) returns (pid: nat)
      modifies this`names, this`log
      ensures pid == |old(names)| && names == old(names) + [name]
      ensures log == if fails then old(log) else old(log) + [Started(pid)]
    {
      pid := |names|;
      names := names + [name];
      if !fails {
        log := log + [Started(pid)];
      }
    }

    method Send(pid: nat, signal: Signal)
      modifies this`log
      ensures log == old(log) + [Signalled(pid, signal)]
    {
      log := log + [Signalled(pid, signal)];
    }

    /** The first finished process of a list. */
    method FirstDone(processes: seq<nat>) returns (r: Option<nat>)
      ensures r == FirstExited(log, processes)
    {
      for i := 0 to |processes|
        invariant FirstExited(log, processes) == FirstExited(log, processes[i..])
      {
        if Exited(processes[i]) in log {
          return Some(processes[i]);
        }
      }
      return None;
    }

    /** The log, the number of processes and the schedule. */
    function Here(): World
      reads this
    {
      World(log, |names|, schedule)
    }

    /**
     Polls until the path exists, a process of the list is done, or the wait is cancelled or
     times out.
     */
    method WaitForPath(processes: seq<nat>) returns (r: WaitResult)
      modifies this`schedule, this`log
      ensures Waited(r, log, schedule) == Watch(old(log), old(schedule), processes)
    {
      while schedule != []
        invariant Watch(old(log), old(schedule), processes) == Watch(log, schedule, processes)
        decreases |schedule|
      {
        var tick := Next();
        if tick.path {
          return Found;
        }
        var done := FirstDone(processes);
        if done.Some? {
          return ProcessExited(done.value);
        }
        match tick.choice {
          case Cancel => return Cancelled;
          case Expire => return TimedOut;
          case Continue =>
        }
      }
      return Unfinished;
    }

    /** Blocks until a process is done. */
    method AwaitDone(pid: nat) returns (done: bool)
      modifies this`schedule, this`log
      ensures Awaited(done, log, schedule) == AwaitExit(old(log), old(schedule), pid)
    {
      while Exited(pid) !in log && schedule != []
        invariant AwaitExit(old(log), old(schedule), pid) == AwaitExit(log, schedule, pid)
        decreases |schedule|
      {
        var _ := Next();
      }
      done := Exited(pid) in log;
    }

    /** One round of the loop of `startCAA`, up to the pause. */
    method TryCAA(kubelet: nat) returns (r: CaaResult)
      requires kubelet < |names| && names[kubelet] == KUBELET_NAME && schedule != []
      modifies this`names, this`log, this`schedule
      ensures Brought(r, Here()) == Attempt(old(Here()), kubelet)
      ensures names == old(names) + [CAA_NAME]
    {
      var tick := Next();
      var caa := Start(CAA_NAME, tick.startFails);
      if tick.startFails {
        return StartFailed;
      }
      ghost var started, left := log, schedule;
      var wait := WaitForPath([caa, kubelet]);
      assert wait.ProcessExited? ==> wait.pid == caa || wait.pid == kubelet by {
        WatchReportsListed(started, left, [caa, kubelet]);
      }
      hide Watch;
      if wait.Found? {
        return Connected(caa);
      }
      if wait.Unfinished? {
        return CaaUnfinished;
      }
      if wait.ProcessExited? && names[wait.pid] == names[kubelet] {
        return KubeletExited(caa);
      }
      if !(wait.ProcessExited? && names[wait.pid] == names[caa]) {
        Send(caa, Term);
        var done := AwaitDone(caa);
        if !done {
          return CaaUnfinished;
        }
      }
      return Stopped;
    }

    /**
     Starts the adaptor again and again until its socket appears. Attempts never overlap, and
     whenever the call returns no attempt runs besides the one it returns; only when the kubelet
     exits is the last attempt left behind, and then it has not been signalled. That happens
     exactly when some attempt meets the condition of `LeavesAttempt`.
     */
    method StartCAA(kubelet: nat) returns (r: CaaResult)
      requires kubelet < |names| && names[kubelet] == KUBELET_NAME
      requires Within(log, |names|)
      modifies this`names, this`log, this`schedule
      ensures Brought(r, Here()) == Bring(old(Here()), kubelet)
      ensures r.KubeletExited? <==> exists n: nat, caa :: LeavesNth(old(Here()), kubelet, n, caa)
      ensures old(names) <= names && Within(log, |names|)
      ensures forall i :: |old(names)| <= i < |names| ==> names[i] == CAA_NAME
      ensures OldOnlyExit(old(log), log, |old(names)|)
      ensures SerialStarts(log, |old(names)|)
      ensures !r.CaaUnfinished? ==> AllExitedBut(log, |old(names)|, Survivor(r))
      ensures r.Connected? ==> |old(names)| <= r.pid < |names| && Started(r.pid) in log
      ensures r.KubeletExited? ==>
        Exited(kubelet) in log && |old(names)| <= r.caa < |names| && forall s :: Signalled(r.caa, s) !in log
      ensures !r.Stopped?
    {
      ghost var base := |names|;
      NothingStarted(log, base);
      BringIsOrderly(Here(), kubelet, base);
      BringLeavesSome(Here(), kubelet);
      r := RepeatCAA(kubelet);
    }

    /** The loop of `startCAA`. */
    method RepeatCAA(kubelet: nat) returns (r: CaaResult)
      requires kubelet < |names| && names[kubelet] == KUBELET_NAME
      modifies this`names, this`log, this`schedule
      ensures Brought(r, Here()) == Bring(old(Here()), kubelet)
      ensures old(names) <= names
      ensures forall i :: |old(names)| <= i < |names| ==> names[i] == CAA_NAME
    {
      while schedule != []
        invariant old(names) <= names
        invariant forall i :: |old(names)| <= i < |names| ==> names[i] == CAA_NAME
        invariant Bring(old(Here()), kubelet) == Bring(Here(), kubelet)
        decreases |schedule|
      {
        hide Attempt;
        r := TryCAA(kubelet);
        if !r.Stopped? {
          return;
        }
        if schedule == [] {
          return CaaUnfinished;
        }
        var pause := Next();
        match pause.choice {
          case Cancel => return GaveUp;
          case Expire => return GaveUp;
          case Continue =>
        }
      }
      return CaaUnfinished;
    }

    /** The kill loop of `terminate`. */
    method KillRemaining(processes: seq<nat>)
      modifies this`log
      ensures Tidy(old(log), log, processes)
      ensures forall i :: 0 <= i < |processes| && Started(processes[i]) in log ==> Ended(log, processes[i])
      ensures forall i :: |old(log)| <= i < |log| ==>
        log[i].Signalled? && log[i].signal == Kill && Started(log[i].pid) in old(log) && Exited(log[i].pid) !in old(log)
    {
      for i := 0 to |processes|
        invariant Tidy(old(log), log, processes)
        invariant forall j :: 0 <= j < i && Started(processes[j]) in log ==> Ended(log, processes[j])
        invariant forall j :: |old(log)| <= j < |log| ==>
          && log[j].Signalled? && log[j].signal == Kill
          && Started(log[j].pid) in old(log) && Exited(log[j].pid) !in old(log)
      {
        ghost var before := log;
        StartedInTidy(old(log), log, processes);
        if Started(processes[i]) in log && Exited(processes[i]) !in log {
          assert Exited(processes[i]) !in old(log) by {
            if Exited(processes[i]) in old(log) {
              PrefixKeeps(old(log), log, Exited(processes[i]));
            }
          }
          Send(processes[i], Kill);
        }
        EndedStays(before, log);
      }
    }

    /** The signal loop of `terminate`. */
    method SignalAll(processes: seq<nat>)
      modifies this`log
      ensures log == old(log) + Terms(old(log), processes)
      ensures forall p: nat ::
        Signalled(p, Term) in Terms(old(log), processes) <==> p in processes && Started(p) in old(log)
    {
      var i := |processes|;
      assert processes[i..] == [];
      while i > 0
        invariant 0 <= i <= |processes|
        invariant log == old(log) + Terms(old(log), processes[i..])
      {
        i := i - 1;
        TermsHaveNoStarts(old(log), processes[i + 1..]);
        if Started(processes[i]) in log {
          Send(processes[i], Term);
        }
        assert processes[i..][1..] == processes[i + 1..];
      }
      assert processes[0..] == processes;
      forall p: nat
        ensures Signalled(p, Term) in Terms(old(log), processes) <==> p in processes && Started(p) in old(log)
      {
        TermsReachStarted(old(log), processes, p);
      }
    }

    /** Blocks until a process is done or the deadline passes. */
    method AwaitOrExpire(pid: nat) returns (r: WaitResult)
      modifies this`schedule, this`log
      ensures OnlyExits(old(log), log) && ExitsScheduled(old(log), log, old(schedule))
      ensures r == ProcessExited(pid) || r == TimedOut || r == Unfinished
      ensures r.ProcessExited? ==> Exited(pid) in log
      ensures r.Unfinished? ==> schedule == []
      ensures |schedule| <= |old(schedule)| && schedule == old(schedule)[|old(schedule)| - |schedule|..]
      ensures r.TimedOut? <==> Expired(old(schedule), |old(schedule)| - |schedule|)
    {
      ghost var world := schedule;
      while schedule != []
        invariant OnlyExits(old(log), log) && ExitsScheduled(old(log), log, world)
        invariant |schedule| <= |world| && schedule == world[|world| - |schedule|..]
        invariant !Expired(world, |world| - |schedule|)
        decreases |schedule|
      {
        ghost var seen := |world| - |schedule|;
        var tick := Next();
        assert tick == world[seen];
        if tick.choice == Expire {
          return TimedOut;
        }
        if Exited(pid) in log {
          return ProcessExited(pid);
        }
      }
      return Unfinished;
    }

    /** One wait of `terminate`. */
    method AwaitNext(pid: nat) returns (r: WaitResult)
      modifies this`schedule, this`log
      ensures OnlyExits(old(log) + [Awaiting(pid)], log) && ExitsScheduled(old(log), log, old(schedule))
      ensures r == ProcessExited(pid) || r == TimedOut || r == Unfinished
      ensures r.ProcessExited? ==> Exited(pid) in log
      ensures r.Unfinished? ==> schedule == []
      ensures |schedule| <= |old(schedule)| && schedule == old(schedule)[|old(schedule)| - |schedule|..]
      ensures r.TimedOut? <==> Expired(old(schedule), |old(schedule)| - |schedule|)
      ensures Waits(log) == Waits(old(log)) + [pid]
    {
      WaitsOnce(log, pid);
      log := log + [Awaiting(pid)];
      ghost var awaiting := log;
      r := AwaitOrExpire(pid);
      WaitsSame(awaiting, log);
    }

    /** The wait loop of `terminate`: waits for the started processes, last first, until the deadline. */
    method AwaitAll(processes: seq<nat>) returns (r: WaitResult)
      modifies this`schedule, this`log
      ensures Tidy(old(log), log, processes)
      ensures forall i :: |old(log)| <= i < |log| ==> !IsKill(log[i])
      ensures r == Found || r == TimedOut || r == Unfinished
      ensures r.Found? ==> forall i :: 0 <= i < |processes| && Started(processes[i]) in old(log) ==>
        Exited(processes[i]) in log
      ensures r.Unfinished? ==> schedule == []
      ensures |schedule| <= |old(schedule)|
      ensures r.TimedOut? <==> Expired(old(schedule), |old(schedule)| - |schedule|)
      ensures ExitsScheduled(old(log), log, old(schedule))
      ensures Waits(log) <= Waits(old(log)) + LastFirst(old(log), processes)
      ensures r.Found? ==> Waits(log) == Waits(old(log)) + LastFirst(old(log), processes)
    {
      hide Pass, Waits, LastFirst, Expired, ExitsScheduled;
      ghost var entered := log;
      ghost var world := schedule;
      var i := |processes|;
      assert processes[i..] == [];
      NoneFirst(entered);
      NotYet(entered, world);
      while i > 0
        invariant 0 <= i <= |processes|
        invariant Tidy(entered, log, processes)
        invariant forall j :: i <= j < |processes| && Started(processes[j]) in entered ==> Exited(processes[j]) in log
        invariant forall j :: |entered| <= j < |log| ==> !IsKill(log[j])
        invariant |schedule| <= |world| && schedule == world[|world| - |schedule|..]
        invariant !Expired(world, |world| - |schedule|) && ExitsScheduled(entered, log, world)
        invariant Waits(log) == Waits(entered) + LastFirst(entered, processes[i..])
        decreases i
      {
        i := i - 1;
        LastFirstStep(entered, processes, i);
        TailIsPrefix(entered, processes, i);
        StartedInTidy(entered, log, processes);
        if Started(processes[i]) in log {
          ghost var before, left := log, schedule;
          var one := AwaitNext(processes[i]);
          TidyExtends(entered, before + [Awaiting(processes[i])], log, processes);
          ExpiredInSuffix(world, left, |left| - |schedule|);
          ScheduledInSuffix(entered, before, log, world, left);
          if one.Unfinished? {
            return Unfinished;
          }
          if one.TimedOut? {
            return TimedOut;
          }
          ExitedStays(before, log);
        }
      }
      assert processes[0..] == processes;
      return Found;
    }

    /**
     Signals every started process, last first, then waits for each in the same order; when the
     deadline passes it kills whatever has not exited. All processes have been signalled before
     the first wait, and at return each started one has exited or has been sent SIGKILL; without
     a passed deadline every one has exited and none has been killed.
     */
    method Terminate(processes: seq<nat>) returns (finished: bool)
      modifies this`schedule, this`log
      ensures Tidy(old(log), log, processes)
      ensures old(log) + Terms(old(log), processes) <= log
      ensures |Terms(old(log), processes)| == |LastFirst(old(log), processes)|
      ensures forall p: nat ::
        Signalled(p, Term) in Terms(old(log), processes) <==> p in processes && Started(p) in old(log)
      ensures forall i :: |old(log)| <= i < |old(log)| + |Terms(old(log), processes)| ==>
        !log[i].Awaiting? && log[i] == Signalled(LastFirst(old(log), processes)[i - |old(log)|], Term)
      ensures Waits(log) <= Waits(old(log)) + LastFirst(old(log), processes)
      ensures finished ==> forall i :: 0 <= i < |processes| && Started(processes[i]) in old(log) ==>
        Ended(log, processes[i])
      ensures !finished ==> schedule == [] && !Expired(old(schedule), |old(schedule)|)
      ensures |schedule| <= |old(schedule)|
      ensures ExitsScheduled(old(log), log, old(schedule))
      ensures !Expired(old(schedule), |old(schedule)| - |schedule|) ==>
        && (finished ==> forall i :: 0 <= i < |processes| && Started(processes[i]) in old(log) ==>
            Exited(processes[i]) in log)
        && forall i :: |old(log)| <= i < |log| ==> !IsKill(log[i])
    {
      hide Waits, LastFirst, Terms, Expired, ExitsScheduled;
      ghost var entered := log;
      SignalAll(processes);
      TermsHaveNoStarts(entered, processes);
      TermsAreLastFirst(entered, processes);
      ghost var signalled := log;
      WaitsSame(entered, signalled);
      SameLastFirst(entered, signalled, processes);
      ghost var world := schedule;
      NotYet(entered, world);
      AddsNoExits(entered, entered, signalled, world);
      var r := AwaitAll(processes);
      ScheduledInSuffix(entered, signalled, log, world, world);
      TidyExtends(entered, signalled, log, processes);
      if r.TimedOut? {
        ghost var late := log;
        KillRemaining(processes);
        WaitsSame(late, log);
        AddsNoExits(entered, late, log, world);
        TidyExtends(entered, late, log, processes);
        StartedInTidy(entered, log, processes);
      }
      finished := !r.Unfinished?;
    }

    /**
     The last part of `run`: it brings up the adaptor and returns, with the list of processes
     that the deferred termination will see, when something ends. `abandoned` is the adaptor
     attempt that is not in that list but may still run.
     */
    method SuperviseAdaptor(kubelet: nat, running: seq<nat>)
      returns (finished: bool, processes: seq<nat>, ghost abandoned: Option<nat>)
      requires kubelet < |names| && names[kubelet] == KUBELET_NAME && Within(log, |names|)
      requires forall p: nat :: Started(p) in log ==> p in running
      requires (forall p :: p in running ==> p < |names|) && InStartOrder(running)
      modifies this`names, this`log, this`schedule
      ensures Accounted(names, log, finished, processes, abandoned)
      ensures abandoned == LeftBy(Bring(old(Here()), kubelet).result)
      ensures abandoned.Some? ==> finished && Here() == Bring(old(Here()), kubelet).world
    {
      hide Bring, LeavesNth;
      processes, abandoned := running, None;
      ghost var base := |names|;
      ghost var before := log;
      var r := StartCAA(kubelet);
      NoOldStarts(before, log, base);
      match r {
        case CaaUnfinished =>
          finished := false;
        case Connected(caa) =>
          assert forall i :: 0 <= i < |running| ==> running[i] in running;
          processes := processes + [caa];
          var cancelled;
          finished, cancelled := AwaitEnd(processes);
        case KubeletExited(caa) =>
          finished, abandoned := true, Some(caa);
        case StartFailed =>
          finished := true;
        case GaveUp =>
          finished := true;
      }
    }

    /** Starts the kubelet once containerd is up. */
    method StartKubelet() returns (fails: bool)
      requires names == [CONTAINERD_NAME] && OnlyExits([Started(0)], log) && schedule != []
      modifies this`names, this`log, this`schedule
      ensures names == [CONTAINERD_NAME, KUBELET_NAME] && schedule == old(schedule)[1..]
      ensures fails == old(schedule)[0].startFails
      ensures log == Pass(old(log), old(schedule)[0].exits) + if fails then [] else [Started(1)]
      ensures Within(log, 2) && forall p: nat :: Started(p) in log ==> p == 0 || (p == 1 && !fails)
    {
      var tick := Next();
      OnlyExitsTransitive([Started(0)], old(log), log);
      OnlyContainerd(log);
      fails := tick.startFails;
      var _ := Start(KUBELET_NAME, fails);
    }

    /** The body of `run` after containerd has started. */
    method Supervise(containerd: nat, hashFails: bool)
      returns (finished: bool, processes: seq<nat>, ghost abandoned: Option<nat>)
      requires containerd == 0 && names == [CONTAINERD_NAME] && log == [Started(0)]
      modifies this`names, this`log, this`schedule
      ensures Accounted(names, log, finished, processes, abandoned)
      ensures
        match KubeletWorld(Watch([Started(0)], old(schedule), [0]), hashFails)
        case None => abandoned == None
        case Some(w) =>
          && abandoned == LeftBy(Bring(w, 1).result)
          && (abandoned.Some? ==> finished && Here() == Bring(w, 1).world)
    {
      hide Bring, Watch, Pass;
      processes, abandoned := [containerd], None;
      WatchOnlyExits(log, schedule, [containerd]);
      var socket := WaitForPath([containerd]);
      OnlyContainerd(log);
      if !socket.Found? {
        finished := !socket.Unfinished?;
        return;
      }
      if schedule == [] {
        finished := false;
        return;
      }
      var fails := StartKubelet();
      processes := processes + [1];
      if fails || hashFails {
        finished := true;
        return;
      }
      finished, processes, abandoned := SuperviseAdaptor(1, processes);
    }

    /** Blocks until the node is stopped or one of its processes exits. */
    method AwaitEnd(processes: seq<nat>) returns (finished: bool, cancelled: bool)
      requires Within(log, |names|)
      modifies this`schedule, this`log
      ensures OnlyExits(old(log), log) && Within(log, |names|)
      ensures forall e :: e in old(log) ==> e in log
      ensures forall p :: Started(p) in log ==> Started(p) in old(log)
      ensures if finished then cancelled || exists i :: 0 <= i < |processes| && Exited(processes[i]) in log
        else schedule == []
    {
      finished, cancelled := false, false;
      while schedule != [] && !finished
        invariant OnlyExits(old(log), log)
        invariant finished ==> cancelled || exists i :: 0 <= i < |processes| && Exited(processes[i]) in log
        decreases |schedule|
      {
        var tick := Next();
        cancelled := tick.choice == Cancel;
        finished := cancelled || exists i :: 0 <= i < |processes| && Exited(processes[i]) in log;
      }
      OnlyExitsKeeps(old(log), log);
      NothingStarted(old(log), |names|);
      ExitsKeep(old(log), log, |names|, None, |names|);
    }

    /**
     The whole program. When it ends, every process it started has exited or has been sent
     SIGKILL, with one exception: an adaptor attempt that was waiting for its socket when the
     kubelet exited is in nobody's list and is never signalled. Module function `Abandoned` says
     which attempt that is, if any.
     */
    method Run(hashFails: bool) returns (finished: bool, ghost abandoned: Option<nat>)
      requires names == [] && log == []
      modifies this`names, this`log, this`schedule
      ensures finished ==> forall p: nat :: Started(p) in log && abandoned != Some(p) ==> Ended(log, p)
      ensures abandoned.Some? ==> LeftBehind(names, log, abandoned.value)
      ensures abandoned == Abandoned(old(schedule), hashFails)
      ensures abandoned.Some? ==>
        var w := Bring(AdaptorWorld(old(schedule), hashFails).value, 1).world;
        w.log <= log && ExitsScheduled(w.log, log, w.schedule) && (finished || !Expired(w.schedule, |w.schedule|))
    {
      hide Bring, Watch;
      abandoned := None;
      if schedule == [] {
        finished := false;
        return;
      }
      var tick := Next();
      var containerd := Start(CONTAINERD_NAME, tick.startFails);
      if tick.startFails {
        finished := true;
        return;
      }
      var processes;
      finished, processes, abandoned := Supervise(containerd, hashFails);
      if !finished {
        return;
      }
      ghost var before := log;
      finished := Terminate(processes);
      TidyKeeps(before, log, processes);
    }
  }

  // ------------------------------------------------------------------ a run that leaves an attempt behind

  const QUIET := Tick([], false, false, Continue)

  /** Containerd and its socket, the kubelet, one adaptor attempt; then the kubelet exits, and then containerd. */
  const KUBELET_EXITS := [
    QUIET, Tick([], true, false, Continue), QUIET, QUIET, Tick([1], false, false, Continue),
    Tick([0], false, false, Continue), Tick([], false, false, Expire)]

  /** Up to the start of the adaptor all goes well. */
  lemma KubeletExitsBefore()
    ensures AdaptorWorld(KUBELET_EXITS, false) == Some(World([Started(0), Started(1)], 2, KUBELET_EXITS[3..]))
  {
    var rest := KUBELET_EXITS[1..];
    assert rest[0].path && Pass([Started(0)], []) == [Started(0)];
    assert Watch([Started(0)], rest, [0]) == Waited(Found, [Started(0)], rest[1..]);
    assert rest[1..] == KUBELET_EXITS[2..] && KUBELET_EXITS[2..][0] == QUIET &&
      KUBELET_EXITS[2..][1..] == KUBELET_EXITS[3..];
    assert [Started(0)] + [Started(1)] == [Started(0), Started(1)];
  }

  lemma KubeletExitsDuring()
    ensures
      Bring(World([Started(0), Started(1)], 2, KUBELET_EXITS[3..]), 1)
      == Brought(KubeletExited(2), World([Started(0), Started(1), Started(2), Exited(1)], 3, KUBELET_EXITS[5..]))
  {
    var w := World([Started(0), Started(1)], 2, KUBELET_EXITS[3..]);
    assert w.schedule[0] == QUIET && w.schedule[1..] == KUBELET_EXITS[4..];
    assert AttemptLog(w) == [Started(0), Started(1), Started(2)];
    var now := Pass(AttemptLog(w), [1]);
    assert now == [Started(0), Started(1), Started(2), Exited(1)] by {
      assert [1][..0] == [] && AttemptLog(w)[1] == Started(1);
      assert Exited(1) !in AttemptLog(w) && Pass(AttemptLog(w), [1][..0]) == AttemptLog(w);
    }
    assert FirstExited(now, [2, 1]) == Some(1) by {
      assert [2, 1][1..] == [1];
    }
    assert KUBELET_EXITS[4..][0] == Tick([1], false, false, Continue) && KUBELET_EXITS[4..][1..] == KUBELET_EXITS[5..];
    assert Watch(AttemptLog(w), KUBELET_EXITS[4..], [2, 1]) == Waited(ProcessExited(1), now, KUBELET_EXITS[5..]);
  }

  /** The program ends, and the adaptor attempt still runs without ever having been signalled. */
  method KubeletExitLeavesAttempt() returns (host: Host, finished: bool)
    ensures fresh(host) && finished
    ensures |host.names| > 2 && host.names[2] == CAA_NAME && Started(2) in host.log
    ensures !Ended(host.log, 2) && Exited(2) !in host.log && forall s :: Signalled(2, s) !in host.log
  {
    hide Bring, Watch, AdaptorWorld;
    host := new Host;
    host.names, host.log, host.schedule := [], [], KUBELET_EXITS;
    KubeletExitsBefore();
    KubeletExitsDuring();
    ghost var abandoned;
    finished, abandoned := host.Run(false);
    assert abandoned == Some(2);
    ghost var left := KUBELET_EXITS[5..];
    assert left == [Tick([0], false, false, Continue), Tick([], false, false, Expire)];
    assert left[1].choice == Expire;
    assert Exited(2) !in [Started(0), Started(1), Started(2), Exited(1)];
    PrefixKeeps([Started(0), Started(1), Started(2), Exited(1)], host.log, Started(2));
  }
}
