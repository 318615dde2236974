/**
 Searches and updates of condition lists: `conditionByType` in internal/server/server.go,
 `podReady` and `runnerTermination` in internal/controller/podsandbox_controller.go, and the
 replace-or-append update of a status condition.
 */
module Conditions {
  import opened Objects

  /** The first condition of a type. */
  function FindCondition(conditions: seq<Condition>, kind: ConditionKind): (r: Option<Condition>)
    ensures r.None? ==> forall i :: 0 <= i < |conditions| ==> conditions[i].kind != kind
    ensures r.Some? ==> exists i :: 0 <= i < |conditions| && conditions[i] == r.value && r.value.kind == kind
                                    && forall j :: 0 <= j < i ==> conditions[j].kind != kind
  {
    if conditions == [] then None
    else if conditions[0].kind == kind then Some(conditions[0])
    else
      var rest := FindCondition(conditions[1..], kind);
      assert rest.Some? ==> exists i :: 0 <= i < |conditions| && conditions[i] == rest.value && rest.value.kind == kind
                                        && forall j :: 0 <= j < i ==> conditions[j].kind != kind by {
        if rest.Some? {
          var i :| 0 <= i < |conditions[1..]| && conditions[1..][i] == rest.value && rest.value.kind == kind
                   && forall j :: 0 <= j < i ==> conditions[1..][j].kind != kind;
          assert conditions[i + 1] == rest.value;
          assert forall j :: 1 <= j < i + 1 ==> conditions[j] == conditions[1..][j - 1];
        }
      }
      rest
  }

  method ConditionByType(conditions: seq<Condition>, kind: ConditionKind) returns (r: Option<Condition>)
    ensures r == FindCondition(conditions, kind)
  {
    for i := 0 to |conditions|
      invariant FindCondition(conditions, kind) == FindCondition(conditions[i..], kind)
    {
      if conditions[i].kind == kind {
        return Some(conditions[i]);
      }
    }
    return None;
  }

  predicate ConditionTrue(conditions: seq<Condition>, kind: ConditionKind) {
    var c := FindCondition(conditions, kind);
    c.Some? && c.value.status == True
  }

  /** Replaces the first condition of the same type in place, or appends. */
  function SetCondition(conditions: seq<Condition>, c: Condition, now: int): seq<Condition> {
    if conditions == [] then [c.(transition := now)]
    else if conditions[0].kind == c.kind then
      var since := if conditions[0].status == c.status then conditions[0].transition else now;
      [c.(transition := since)] + conditions[1..]
    else [conditions[0]] + SetCondition(conditions[1..], c, now)
  }

  /** The update is visible to a search, up to its transition time, and to no other search. */
  lemma {:induction false} FindAfterSet(conditions: seq<Condition>, c: Condition, now: int, kind: ConditionKind)
    ensures
      var before, after := FindCondition(conditions, kind), FindCondition(SetCondition(conditions, c, now), kind);
      if kind != c.kind then after == before
      else if before.Some? && before.value.status == c.status
        then after == Some(c.(transition := before.value.transition))
      else after == Some(c.(transition := now))
  {
    if conditions != [] && conditions[0].kind != c.kind {
      FindAfterSet(conditions[1..], c, now, kind);
      assert SetCondition(conditions, c, now)[1..] == SetCondition(conditions[1..], c, now);
    } else if conditions != [] {
      assert SetCondition(conditions, c, now)[1..] == conditions[1..];
    }
  }

  /** Setting the same condition again, at any later time, changes nothing. */
  lemma {:induction false} SetTwice(conditions: seq<Condition>, c: Condition, now: int, later: int)
    ensures SetCondition(SetCondition(conditions, c, now), c, later) == SetCondition(conditions, c, now)
  {
    var once := SetCondition(conditions, c, now);
    if conditions != [] && conditions[0].kind != c.kind {
      SetTwice(conditions[1..], c, now, later);
      assert once[1..] == SetCondition(conditions[1..], c, now);
    }
  }

  /** Status of the first pod condition of type Ready. */
  predicate IsPodReady(conditions: seq<PodCondition>) {
    conditions != [] &&
    if conditions[0].kind == PodReady then conditions[0].status == True else IsPodReady(conditions[1..])
  }

  method PodIsReady(conditions: seq<PodCondition>) returns (ready: bool)
    ensures ready == IsPodReady(conditions)
    ensures ready <==> exists i :: 0 <= i < |conditions| && conditions[i] == PodCondition(PodReady, True)
                                   && forall j :: 0 <= j < i ==> conditions[j].kind != PodReady
  {
    for i := 0 to |conditions|
      invariant IsPodReady(conditions) == IsPodReady(conditions[i..])
      invariant forall j :: 0 <= j < i ==> conditions[j].kind != PodReady
    {
      if conditions[i].kind == PodReady {
        return conditions[i].status == True;
      }
    }
    return false;
  }

  const RUNNER_CONTAINER := "runner"

  /** Termination message of the first container named like the runner, if it terminated. */
  function TerminationOf(containers: seq<ContainerStatus>): Option<string> {
    if containers == [] then None
    else if containers[0].name == RUNNER_CONTAINER then containers[0].terminated
    else TerminationOf(containers[1..])
  }

  method RunnerTermination(containers: seq<ContainerStatus>) returns (r: Option<string>)
    ensures r == TerminationOf(containers)
    ensures r.Some? ==> ContainerStatus(RUNNER_CONTAINER, r) in containers
  {
    for i := 0 to |containers|
      invariant TerminationOf(containers) == TerminationOf(containers[i..])
    {
      if containers[i].name == RUNNER_CONTAINER {
        return containers[i].terminated;
      }
    }
    return None;
  }
}
