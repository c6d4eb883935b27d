/** The convergence benchmark: create a replicated service, poll the task
    list until exactly the requested number of its tasks are running, and
    repeat that sequentially for every request.

    The Docker calls are replaced by their answers: a create request is
    answered by a CreateReply, and the i-th task-list call of a poll loop by
    the i-th entry of a sequence of ListReply snapshots.  Wall-clock time is
    replaced by the number of list calls and sleeps a poll loop performs. */
module InstanceScaleBench {
  import opened ProgressReport
  import opened Outcomes

  /** Largest value of a Go uint64; the poll budget must not wrap around. */
  const MaxUint64: nat := 0xFFFF_FFFF_FFFF_FFFF

  /** The only task state that counts towards convergence. */
  const RunningState: string := "running"

  /** The poll loop runs at most this many times per requested instance. */
  const PollsPerInstance: nat := 20

  /** The deadline reported by the timeout error, in seconds per instance. */
  const SecondsPerInstance: nat := 10

  /** One entry of a task list: the service it belongs to and its state. */
  datatype Task = Task(serviceId: string, state: string)

  /** The answer to a service-create request (client construction included). */
  datatype CreateReply = Created(id: string) | CreateFailed

  /** The answer to one task-list call (client construction included). */
  datatype ListReply = Listed(tasks: seq<Task>) | ListFailed

  /** What one converged request measured: its list calls and its sleeps. */
  datatype Sample = Sample(listCalls: nat, sleeps: nat)

  /** The conditions on which the source panics. */
  datatype Failure =
    | CreateError
    | ListError(poll: nat)
    | Timeout(instances: nat, deadlineSeconds: nat)

  /** The number of task-list calls the poll loop may make for n instances. */
  function PollBudget(n: nat): (b: nat)
  {
    PollsPerInstance * n
  }

  /** A task counts when it belongs to the service and is running. */
  predicate Counts(t: Task, id: string)
  {
    t.serviceId == id && t.state == RunningState
  }

  /** The number of running tasks of service `id` in one snapshot. */
  function RunningCount(tasks: seq<Task>, id: string): (c: nat)
    ensures c <= |tasks|
  {
    if tasks == [] then 0
    else RunningCount(tasks[..|tasks| - 1], id) + (if Counts(tasks[|tasks| - 1], id) then 1 else 0)
  }

  /** The positions of the tasks that count, an independent description of RunningCount. */
  function MatchingPositions(tasks: seq<Task>, id: string): (positions: set<nat>)
  {
    set j: nat | j < |tasks| && Counts(tasks[j], id)
  }

  lemma {:induction false} RunningCountIsMatchingTasks(tasks: seq<Task>, id: string)
    ensures RunningCount(tasks, id) == |MatchingPositions(tasks, id)|
  {
    if tasks != [] {
      var p := tasks[..|tasks| - 1];
      RunningCountIsMatchingTasks(p, id);
      assert |p| !in MatchingPositions(p, id);
      if Counts(tasks[|p|], id) {
        assert MatchingPositions(tasks, id) == MatchingPositions(p, id) + {|p|};
      } else {
        assert MatchingPositions(tasks, id) == MatchingPositions(p, id);
      }
    }
  }

  lemma {:induction false} RunningCountAppend(a: seq<Task>, b: seq<Task>, id: string)
    ensures RunningCount(a + b, id) == RunningCount(a, id) + RunningCount(b, id)
  {
    if b != [] {
      var b' := b[..|b| - 1];
      assert (a + b)[..|a + b| - 1] == a + b';
      RunningCountAppend(a, b', id);
    } else {
      assert a + b == a;
    }
  }

  /** A task of another service, or in any state but running, changes nothing. */
  lemma NonMatchingTaskIgnored(a: seq<Task>, t: Task, b: seq<Task>, id: string)
    requires !Counts(t, id)
    ensures RunningCount(a + [t] + b, id) == RunningCount(a + b, id)
  {
    RunningCountAppend(a + [t], b, id);
    RunningCountAppend(a, [t], id);
    RunningCountAppend(a, b, id);
    assert [t][..0] == [];
  }

  /** A poll that lists the tasks and sees exactly n of them running. */
  predicate Hit(reply: ListReply, id: string, n: nat)
  {
    reply.Listed? && RunningCount(reply.tasks, id) == n
  }

  /** A poll that lists the tasks and sees any other number running. */
  predicate Miss(reply: ListReply, id: string, n: nat)
  {
    reply.Listed? && RunningCount(reply.tasks, id) != n
  }

  /** The first poll at or after i that is not a miss, or the budget when
      every remaining poll misses: where the poll loop stops. */
  function FirstStop(n: nat, id: string, polls: seq<ListReply>, i: nat): (k: nat)
    requires i <= PollBudget(n) <= |polls|
    ensures i <= k <= PollBudget(n)
    ensures forall j :: i <= j < k ==> Miss(polls[j], id, n)
    ensures k < PollBudget(n) ==> !Miss(polls[k], id, n)
    decreases PollBudget(n) - i
  {
    if i == PollBudget(n) || !Miss(polls[i], id, n) then i
    else FirstStop(n, id, polls, i + 1)
  }

  /** The stopping point is determined by the polls: any k that is preceded
      only by misses and is itself not a miss (or is the budget) is it. */
  lemma FirstStopUnique(n: nat, id: string, polls: seq<ListReply>, k: nat)
    requires PollBudget(n) <= |polls|
    requires k <= PollBudget(n)
    requires forall j :: 0 <= j < k ==> Miss(polls[j], id, n)
    requires k < PollBudget(n) ==> !Miss(polls[k], id, n)
    ensures FirstStop(n, id, polls, 0) == k
  {
  }

  /** What one call of the convergence poller ends with. */
  function ScaleResult(n: nat, create: CreateReply, polls: seq<ListReply>): (r: Result<Sample, Failure>)
    requires PollBudget(n) <= |polls|
    ensures r.Ok? ==> r.value.listCalls == r.value.sleeps + 1 <= PollBudget(n)
  {
    match create
    case CreateFailed => Err(CreateError)
    case Created(id) =>
      var k := FirstStop(n, id, polls, 0);
      if k == PollBudget(n) then Err(Timeout(n, SecondsPerInstance * n))
      else if polls[k].ListFailed? then Err(ListError(k))
      else Ok(Sample(k + 1, k))
  }

  /** The poller converges after k+1 list calls and k sleeps exactly when
      poll k is the first one that sees n running tasks. */
  lemma ConvergesAtFirstHit(n: nat, id: string, polls: seq<ListReply>, k: nat)
    requires PollBudget(n) <= |polls|
    ensures ScaleResult(n, Created(id), polls) == Ok(Sample(k + 1, k)) <==>
      k < PollBudget(n) && Hit(polls[k], id, n) && forall j :: 0 <= j < k ==> Miss(polls[j], id, n)
  {
  }

  /** The poller times out, reporting n and a deadline of 10*n seconds,
      exactly when every one of the 20*n polls misses. */
  lemma TimesOutIffAllMiss(n: nat, id: string, polls: seq<ListReply>)
    requires PollBudget(n) <= |polls|
    ensures var r := ScaleResult(n, Created(id), polls);
      (r.Err? && r.failure.Timeout?) <==> forall j :: 0 <= j < PollBudget(n) ==> Miss(polls[j], id, n)
    ensures var r := ScaleResult(n, Created(id), polls);
      r.Err? && r.failure.Timeout? ==> r.failure == Timeout(n, 10 * n) && PollBudget(n) == 20 * n
  {
  }

  /** A failed task-list call aborts the poller exactly when it is preceded only by misses. */
  lemma ListErrorAtFirstFailure(n: nat, id: string, polls: seq<ListReply>, k: nat)
    requires PollBudget(n) <= |polls|
    ensures ScaleResult(n, Created(id), polls) == Err(ListError(k)) <==>
      k < PollBudget(n) && polls[k].ListFailed? && forall j :: 0 <= j < k ==> Miss(polls[j], id, n)
  {
  }

  /** With zero instances the poll loop never runs and the timeout fires at once. */
  lemma ZeroInstancesTimeOut(id: string, polls: seq<ListReply>)
    ensures ScaleResult(0, Created(id), polls) == Err(Timeout(0, 0))
  {
  }

  /** Snapshots with more running tasks than requested are not convergence. */
  lemma OvershootIsNotConvergence(n: nat, id: string, polls: seq<ListReply>)
    requires PollBudget(n) <= |polls|
    requires forall j :: 0 <= j < PollBudget(n) ==> polls[j].Listed? && RunningCount(polls[j].tasks, id) > n
    ensures ScaleResult(n, Created(id), polls) == Err(Timeout(n, 10 * n))
  {
  }

  /** The convergence poller: create the service, then poll at most 20*n
      times, stopping at the first snapshot with exactly n running tasks
      and sleeping after every other poll. */
  method Scale(n: nat, create: CreateReply, polls: seq<ListReply>)
    returns (r: Result<Sample, Failure>, listCalls: nat, sleeps: nat)
    requires PollBudget(n) <= MaxUint64
    requires PollBudget(n) <= |polls|
    ensures r == ScaleResult(n, create, polls)
    ensures listCalls <= PollBudget(n)
    ensures create.CreateFailed? ==> listCalls == 0 && sleeps == 0
    ensures r.Ok? ==> r.value == Sample(listCalls, sleeps)
    ensures r.Err? && r.failure.ListError? ==> listCalls == r.failure.poll + 1 && sleeps == r.failure.poll
    ensures r.Err? && r.failure.Timeout? ==> listCalls == sleeps == PollBudget(n)
  {
    listCalls, sleeps := 0, 0;
    if create.CreateFailed? {
      r := Err(CreateError);
      return;
    }
    var id := create.id;
    var i: nat := 0;
    while i < PollBudget(n)
      invariant i <= PollBudget(n)
      invariant listCalls == i && sleeps == i
      invariant forall j :: 0 <= j < i ==> Miss(polls[j], id, n)
    {
      listCalls := listCalls + 1;
      var reply := polls[i];
      if reply.ListFailed? {
        FirstStopUnique(n, id, polls, i);
        r := Err(ListError(i));
        return;
      }
      var tasks := reply.tasks;
      var running: nat := 0;
      var t := 0;
      while t < |tasks|
        invariant t <= |tasks|
        invariant running == RunningCount(tasks[..t], id)
      {
        assert tasks[..t + 1][..t] == tasks[..t];
        if tasks[t].serviceId == id && tasks[t].state == RunningState {
          running := running + 1;
        }
        t := t + 1;
      }
      assert tasks[..|tasks|] == tasks;
      if running == n {
        break;
      }
      sleeps := sleeps + 1;
      i := i + 1;
    }
    if i == PollBudget(n) {
      FirstStopUnique(n, id, polls, i);
      r := Err(Timeout(n, SecondsPerInstance * n));
      return;
    }
    FirstStopUnique(n, id, polls, i);
    r := Ok(Sample(listCalls, sleeps));
  }

  /** One request of the benchmark: the create answer and the task-list snapshots. */
  datatype Attempt = Attempt(create: CreateReply, polls: seq<ListReply>)

  /** How the sequential benchmark ends.  Aborted carries the progress lines
      printed before the failing request. */
  datatype BenchRun =
    | LengthOutOfRange
    | Aborted(request: nat, failure: Failure, progress: seq<Line>)
    | Finished(timings: seq<Sample>, progress: seq<Line>)

  /** Every request has an answer for every task-list call it may make. */
  predicate Answered(n: nat, attempts: seq<Attempt>)
  {
    forall i :: 0 <= i < |attempts| ==> PollBudget(n) <= |attempts[i].polls|
  }

  /** The convergence benchmark: run the poller `requests` times in order,
      filling slot i of the preallocated timings and then printing line i+1. */
  method Bench(requests: int, n: nat, attempts: seq<Attempt>) returns (run: BenchRun)
    requires PollBudget(n) <= MaxUint64
    requires requests <= |attempts|
    requires Answered(n, attempts)
    ensures run.LengthOutOfRange? <==> requests < 0
    ensures run.Finished? ==>
      |run.timings| == requests &&
      (forall i :: 0 <= i < requests ==> ScaleResult(n, attempts[i].create, attempts[i].polls) == Ok(run.timings[i])) &&
      run.progress == Lines(requests, requests)
    ensures run.Aborted? ==>
      run.request < requests &&
      (forall i :: 0 <= i < run.request ==> ScaleResult(n, attempts[i].create, attempts[i].polls).Ok?) &&
      ScaleResult(n, attempts[run.request].create, attempts[run.request].polls) == Err(run.failure) &&
      run.progress == Lines(run.request, requests)
    ensures requests >= 0 ==>
      (run.Finished? <==> forall i :: 0 <= i < requests ==> ScaleResult(n, attempts[i].create, attempts[i].polls).Ok?)
  {
    if requests < 0 {
      return LengthOutOfRange;
    }
    var timings := new Sample[requests];
    var progress: seq<Line> := [];
    var i := 0;
    while i < requests
      invariant 0 <= i <= requests
      invariant progress == Lines(i, requests)
      invariant forall j :: 0 <= j < i ==> ScaleResult(n, attempts[j].create, attempts[j].polls) == Ok(timings[j])
    {
      var r, listCalls, sleeps := Scale(n, attempts[i].create, attempts[i].polls);
      if r.Err? {
        return Aborted(i, r.failure, progress);
      }
      timings[i] := r.value;
      progress := progress + [Line(i + 1, requests)];
      i := i + 1;
    }
    return Finished(timings[..], progress);
  }
}
