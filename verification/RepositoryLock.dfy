/** withRepositoryLock: a chain of promises per repository, as interleaved tasks. */
module RepositoryLock {
  import opened Common

  type Repository = string
  type TaskId = nat

  datatype Stage = Waiting | Inside | Finished

  /** A call of withRepositoryLock: the queued promise it awaits, if there was one, and where it stands. */
  datatype Task = Task(repository: Repository, previous: Option<TaskId>, stage: Stage)

  /** Tasks in the order of their calls; locks holds the task whose queued promise is in the map. */
  datatype State = State(tasks: seq<Task>, locks: map<Repository, TaskId>)

  /** A task's queued promise: previous.then(() => current). */
  predicate Resolved(tasks: seq<Task>, t: TaskId)
    decreases t
  {
    && t < |tasks| && tasks[t].stage == Finished
    && (tasks[t].previous == None || (tasks[t].previous.value < t && Resolved(tasks, tasks[t].previous.value)))
  }

  predicate CanEnter(tasks: seq<Task>, t: TaskId) {
    && t < |tasks| && tasks[t].stage == Waiting
    && (tasks[t].previous == None || Resolved(tasks, tasks[t].previous.value))
  }

  function Call(s: State, repository: Repository): State {
    var previous := if repository in s.locks then Some(s.locks[repository]) else None;
    State(s.tasks + [Task(repository, previous, Waiting)], s.locks[repository := |s.tasks|])
  }

  /** await previous completes. */
  function Enter(s: State, t: TaskId): State {
    if CanEnter(s.tasks, t) then s.(tasks := s.tasks[t := s.tasks[t].(stage := Inside)]) else s
  }

  /** The operation returns or throws: the finally block runs. */
  function Leave(s: State, t: TaskId): State {
    if t < |s.tasks| && s.tasks[t].stage == Inside then
      var repository := s.tasks[t].repository;
      State(s.tasks[t := s.tasks[t].(stage := Finished)],
            if repository in s.locks && s.locks[repository] == t then s.locks - {repository} else s.locks)
    else s
  }

  datatype Step = CallStep(repository: Repository) | EnterStep(task: TaskId) | LeaveStep(task: TaskId)

  function Next(s: State, step: Step): State {
    match step
    case CallStep(repository) => Call(s, repository)
    case EnterStep(t) => Enter(s, t)
    case LeaveStep(t) => Leave(s, t)
  }

  function Run(steps: seq<Step>): State {
    if steps == [] then State([], map[]) else Next(Run(steps[..|steps| - 1]), steps[|steps| - 1])
  }

  /** Every earlier task on the same repository has finished. */
  ghost predicate Alone(tasks: seq<Task>, t: TaskId)
    requires t <= |tasks|
  {
    t < |tasks| ==>
      forall k :: 0 <= k < t && tasks[k].repository == tasks[t].repository ==> tasks[k].stage == Finished
  }

  /** A task follows its predecessor directly, or follows finished tasks only. */
  ghost predicate Follows(tasks: seq<Task>, t: TaskId)
    requires t < |tasks|
  {
    match tasks[t].previous
    case None => Alone(tasks, t)
    case Some(p) =>
      && p < t && tasks[p].repository == tasks[t].repository
      && forall k :: p < k < t ==> tasks[k].repository != tasks[t].repository
  }

  ghost predicate StateOk(s: State) {
    && (forall t :: 0 <= t < |s.tasks| ==> Follows(s.tasks, t))
    && (forall t :: 0 <= t < |s.tasks| && s.tasks[t].stage != Waiting ==> Alone(s.tasks, t))
    && (forall r :: r in s.locks ==>
          && s.locks[r] < |s.tasks| && s.tasks[s.locks[r]].repository == r && s.tasks[s.locks[r]].stage != Finished
          && forall k :: s.locks[r] < k < |s.tasks| ==> s.tasks[k].repository != r)
    && (forall t :: 0 <= t < |s.tasks| && s.tasks[t].stage != Finished ==> s.tasks[t].repository in s.locks)
  }

  lemma {:induction false} ResolvedIsAlone(tasks: seq<Task>, t: TaskId)
    requires forall k :: 0 <= k < |tasks| ==> Follows(tasks, k)
    requires Resolved(tasks, t)
    ensures forall k :: 0 <= k <= t && tasks[k].repository == tasks[t].repository ==> tasks[k].stage == Finished
    decreases t
  {
    assert Follows(tasks, t);
    if tasks[t].previous.Some? {
      ResolvedIsAlone(tasks, tasks[t].previous.value);
    }
  }

  lemma {:induction false} EntersAlone(tasks: seq<Task>, t: TaskId)
    requires forall k :: 0 <= k < |tasks| ==> Follows(tasks, k)
    requires CanEnter(tasks, t)
    ensures Alone(tasks, t)
  {
    assert Follows(tasks, t);
    if tasks[t].previous.Some? {
      ResolvedIsAlone(tasks, tasks[t].previous.value);
    }
  }

  lemma {:induction false} CallKeepsOk(s: State, repository: Repository)
    requires StateOk(s)
    ensures StateOk(Call(s, repository))
  {
    var next := Call(s, repository);
    forall t | 0 <= t < |next.tasks| ensures Follows(next.tasks, t) {
      if t < |s.tasks| {
        assert Follows(s.tasks, t);
      }
    }
    forall t | 0 <= t < |next.tasks| && next.tasks[t].stage != Waiting ensures Alone(next.tasks, t) {
      assert Alone(s.tasks, t);
    }
  }

  /** Setting the stage of one task leaves the rest as it was. */
  lemma {:induction false} EnterKeepsOk(s: State, t: TaskId)
    requires StateOk(s)
    ensures StateOk(Enter(s, t))
  {
    if CanEnter(s.tasks, t) {
      var next := Enter(s, t);
      EntersAlone(s.tasks, t);
      forall k | 0 <= k < |next.tasks| ensures Follows(next.tasks, k) {
        assert Follows(s.tasks, k);
      }
      forall k | 0 <= k < |next.tasks| && next.tasks[k].stage != Waiting ensures Alone(next.tasks, k) {
        if k != t {
          assert Alone(s.tasks, k);
        }
      }
    }
  }

  lemma {:induction false} LeaveKeepsOk(s: State, t: TaskId)
    requires StateOk(s)
    ensures StateOk(Leave(s, t))
  {
    if t < |s.tasks| && s.tasks[t].stage == Inside {
      var next, r := Leave(s, t), s.tasks[t].repository;
      assert Alone(s.tasks, t);
      forall k | 0 <= k < |next.tasks| ensures Follows(next.tasks, k) {
        assert Follows(s.tasks, k);
      }
      forall k | 0 <= k < |next.tasks| && next.tasks[k].stage != Waiting ensures Alone(next.tasks, k) {
        assert Alone(s.tasks, k);
      }
      assert forall k :: 0 <= k < |next.tasks| && next.tasks[k].stage != Finished ==> next.tasks[k].repository in next.locks;
    }
  }

  lemma {:induction false} EveryStateIsOk(steps: seq<Step>)
    ensures StateOk(Run(steps))
  {
    hide StateOk, Call, Enter, Leave;
    if steps == [] {
      NothingIsOk();
    } else {
      var s := Run(steps[..|steps| - 1]);
      EveryStateIsOk(steps[..|steps| - 1]);
      match steps[|steps| - 1]
      case CallStep(repository) => CallKeepsOk(s, repository);
      case EnterStep(t) => EnterKeepsOk(s, t);
      case LeaveStep(t) => LeaveKeepsOk(s, t);
    }
  }

  lemma {:induction false} NothingIsOk()
    ensures StateOk(State([], map[]))
  {
  }

  /**
   * In every run at most one task is inside per repository, tasks enter in the order of their calls, and
   * a repository has no entry in the map exactly when none of its tasks is inside or waits.
   */
  lemma {:induction false} OneAtATimeInOrder(steps: seq<Step>)
    ensures var s := Run(steps);
            && (forall t :: 0 <= t < |s.tasks| && s.tasks[t].stage == Inside ==> Alone(s.tasks, t))
            && (forall j, k :: 0 <= j < k < |s.tasks| && s.tasks[j].repository == s.tasks[k].repository ==>
                  !(s.tasks[j].stage == Inside && s.tasks[k].stage == Inside))
            && (forall r: Repository :: r in s.locks <==>
                  exists t :: 0 <= t < |s.tasks| && s.tasks[t].repository == r && s.tasks[t].stage != Finished)
  {
    hide Run;
    EveryStateIsOk(steps);
    var s := Run(steps);
    forall j, k | 0 <= j < k < |s.tasks| && s.tasks[j].repository == s.tasks[k].repository
      ensures !(s.tasks[j].stage == Inside && s.tasks[k].stage == Inside)
    {
      if s.tasks[k].stage == Inside {
        assert Alone(s.tasks, k);
      }
    }
  }

  lemma {:induction false} FinishedIsResolved(tasks: seq<Task>, t: TaskId)
    requires forall k :: 0 <= k < |tasks| ==> Follows(tasks, k)
    requires t < |tasks|
    requires forall k :: 0 <= k <= t && tasks[k].repository == tasks[t].repository ==> tasks[k].stage == Finished
    ensures Resolved(tasks, t)
    decreases t
  {
    assert Follows(tasks, t);
    if tasks[t].previous.Some? {
      FinishedIsResolved(tasks, tasks[t].previous.value);
    }
  }

  /** The lock is never stuck: a task whose earlier tasks have all finished can enter. */
  lemma {:induction false} FirstWaiterCanEnter(steps: seq<Step>, t: TaskId)
    requires t < |Run(steps).tasks| && Run(steps).tasks[t].stage == Waiting
    ensures CanEnter(Run(steps).tasks, t) <==> Alone(Run(steps).tasks, t)
    ensures Next(Run(steps), EnterStep(t)).tasks[t].stage == Inside <==> Alone(Run(steps).tasks, t)
  {
    hide Run, Resolved;
    EveryStateIsOk(steps);
    var tasks := Run(steps).tasks;
    assert Follows(tasks, t);
    if CanEnter(tasks, t) {
      EntersAlone(tasks, t);
    } else if Alone(tasks, t) && tasks[t].previous.Some? {
      FinishedIsResolved(tasks, tasks[t].previous.value);
    }
  }

  // ---- the map as the object it is

  class RepositoryLocks {
    var locks: map<Repository, TaskId>
    var calls: nat
    ghost var tasks: seq<Task>

    ghost function S(): State
      reads this
    {
      State(tasks, locks)
    }

    ghost predicate Valid()
      reads this
    {
      StateOk(S()) && calls == |tasks|
    }

    constructor ()
      ensures Valid() && S() == State([], map[])
    {
      locks, tasks, calls := map[], [], 0;
    }

    /** The part before the await: the caller's promise is chained and takes its place in the map. */
    method Request(repository: Repository) returns (t: TaskId, previous: Option<TaskId>)
      requires Valid()
      modifies this
      ensures Valid()
      ensures S() == Call(old(S()), repository)
      ensures t == |old(tasks)| && tasks[t].previous == previous
    {
      CallKeepsOk(S(), repository);
      t := calls;
      previous := if repository in locks then Some(locks[repository]) else None;
      locks := locks[repository := t];
      tasks := tasks + [Task(repository, previous, Waiting)];
      calls := calls + 1;
    }

    /** The await is over. */
    ghost method Awaited(t: TaskId)
      requires Valid() && CanEnter(tasks, t)
      modifies this
      ensures Valid()
      ensures S() == Enter(old(S()), t)
    {
      EnterKeepsOk(S(), t);
      tasks := tasks[t := tasks[t].(stage := Inside)];
    }

    /** The finally block. */
    method Release(repository: Repository, t: TaskId)
      requires Valid() && t < |tasks| && tasks[t].stage == Inside && tasks[t].repository == repository
      modifies this
      ensures Valid()
      ensures S() == Leave(old(S()), t)
    {
      LeaveKeepsOk(S(), t);
      tasks := tasks[t := tasks[t].(stage := Finished)];
      if repository in locks && locks[repository] == t {
        locks := locks - {repository};
      }
    }
  }
}
