/**
 * The two polling loops of danmu/trakt_calendar_danmu_autofetch.js:
 * `findExecutionTaskId` (scheduler task to execution task) and
 * `waitForTaskCompletion` (execution task to a terminal status).
 * Waits are counted, not timed.
 */
module TaskPolling {
  import opened Wrappers
  import opened Http
  import opened DanmuApi

  /** `findExecutionTaskId`'s default number of lookups. */
  const DefaultMaxRetries: nat := 10

  /** The id lookup number `n` yields, if it yields a truthy one; errors and null count as nothing. */
  function Found(replies: Script<Reply<ExecutionLookup>>, n: nat): (id: Option<string>)
    ensures id.Some? ==> Truthy(id)
  {
    match GetExecutionTaskId(replies(n))
    case Ok(id) => if Truthy(id) then id else None
    case Err(_) => None
  }

  /** A run of the resolver: the id found, the lookups made and the `retryDelay` pauses. */
  datatype Resolution = Resolution(executionTaskId: Option<string>, lookups: nat, waits: nat)

  /** Lookup number `i + 1` of `maxRetries`; the `for` loop written as recursion. */
  function ResolveFrom(i: nat, maxRetries: nat, replies: Script<Reply<ExecutionLookup>>): (r: Resolution)
    requires i <= maxRetries
    ensures r.lookups <= maxRetries - i
    ensures r.waits == if r.lookups == 0 then 0 else r.lookups - 1
    ensures forall n :: i <= n < i + r.lookups - 1 ==> Found(replies, n).None?
    ensures r.executionTaskId.Some? ==> r.lookups >= 1 && Found(replies, i + r.lookups - 1) == r.executionTaskId
    ensures r.executionTaskId.None? ==>
      r.lookups == maxRetries - i && forall n :: i <= n < maxRetries ==> Found(replies, n).None?
    decreases maxRetries - i
  {
    if i == maxRetries then Resolution(None, 0, 0)
    else
      var id := Found(replies, i);
      if id.Some? then Resolution(id, 1, 0)
      else if i + 1 == maxRetries then Resolution(None, 1, 0)
      else
        var rest := ResolveFrom(i + 1, maxRetries, replies);
        Resolution(rest.executionTaskId, rest.lookups + 1, rest.waits + 1)
  }

  /**
   * `findExecutionTaskId`: at most `maxRetries` lookups; the first truthy id
   * is returned; when every lookup is null or an error the result is null
   * after exactly `maxRetries` lookups. It never fails.
   */
  function FindExecutionTaskId(maxRetries: nat, replies: Script<Reply<ExecutionLookup>>): (r: Resolution)
    ensures r.lookups <= maxRetries
    ensures r.executionTaskId.Some? ==>
      && 1 <= r.lookups
      && Found(replies, r.lookups - 1) == r.executionTaskId
      && forall n :: 0 <= n < r.lookups - 1 ==> Found(replies, n).None?
    ensures r.executionTaskId.None? <==> forall n :: 0 <= n < maxRetries ==> Found(replies, n).None?
    ensures r.executionTaskId.None? ==> r.lookups == maxRetries
    ensures r.waits == if r.lookups == 0 then 0 else r.lookups - 1
  {
    ResolveFrom(0, maxRetries, replies)
  }

  /** `waitForTaskCompletion`'s ceiling on status polls (5 s apart, about ten minutes). */
  const MaxAttempts: nat := 120

  predicate IsCompleted(status: string) {
    status == "COMPLETED" || status == "已完成"
  }

  predicate IsFailed(status: string) {
    status == "FAILED" || status == "失败"
  }

  function Poll(taskId: string, replies: Script<Reply<TaskInfo>>, n: nat): Result<TaskInfo, DanmuError> {
    GetTaskStatus(taskId, replies(n))
  }

  /** Poll `n` reports a terminal status. */
  predicate Terminal(taskId: string, replies: Script<Reply<TaskInfo>>, n: nat) {
    Poll(taskId, replies, n).Ok? && (IsCompleted(Poll(taskId, replies, n).value.status) || IsFailed(Poll(taskId, replies, n).value.status))
  }

  /** How watching ended; the source returns the task for `Completed` and null for the other two. */
  datatype WatchEnd = Completed(info: TaskInfo) | FailedStatus(info: TaskInfo) | TimedOut

  datatype Watch = Watch(end: WatchEnd, polls: nat, waits: nat) {
    /** What `waitForTaskCompletion` returns. */
    function Result(): Option<TaskInfo> {
      if end.Completed? then Some(end.info) else None
    }
  }

  /** Poll number `attempts + 1`; the `while` loop written as recursion on the attempt counter. */
  function WatchFrom(attempts: nat, taskId: string, replies: Script<Reply<TaskInfo>>): (r: Watch)
    requires attempts <= MaxAttempts
    ensures r.polls <= MaxAttempts - attempts
    ensures forall n :: attempts <= n < attempts + r.polls - 1 ==> !Terminal(taskId, replies, n)
    ensures r.end.Completed? ==>
      r.polls >= 1 && Poll(taskId, replies, attempts + r.polls - 1) == Ok(r.end.info) && IsCompleted(r.end.info.status)
    ensures r.end.FailedStatus? ==>
      r.polls >= 1 && Poll(taskId, replies, attempts + r.polls - 1) == Ok(r.end.info) && IsFailed(r.end.info.status)
    ensures r.end.TimedOut? ==>
      r.polls == MaxAttempts - attempts && (r.polls == 0 || !Terminal(taskId, replies, MaxAttempts - 1))
    ensures r.waits == if r.end.TimedOut? then r.polls else r.polls - 1
    decreases MaxAttempts - attempts
  {
    if attempts == MaxAttempts then Watch(TimedOut, 0, 0)
    else
      var poll := Poll(taskId, replies, attempts);
      if poll.Ok? && IsCompleted(poll.value.status) then Watch(Completed(poll.value), 1, 0)
      else if poll.Ok? && IsFailed(poll.value.status) then Watch(FailedStatus(poll.value), 1, 0)
      else
        var rest := WatchFrom(attempts + 1, taskId, replies);
        Watch(rest.end, rest.polls + 1, rest.waits + 1)
  }

  /** Watching from the first poll times out exactly when none of the 120 polls is terminal. */
  lemma WatchTimesOut(taskId: string, replies: Script<Reply<TaskInfo>>)
    ensures var r := WatchFrom(0, taskId, replies);
      && (r.end.TimedOut? <==> forall n :: 0 <= n < MaxAttempts ==> !Terminal(taskId, replies, n))
      && (!r.end.TimedOut? ==> 1 <= r.polls <= MaxAttempts && Terminal(taskId, replies, r.polls - 1))
  {
    var r := WatchFrom(0, taskId, replies);
    if r.end.TimedOut? {
      forall n | 0 <= n < MaxAttempts
        ensures !Terminal(taskId, replies, n)
      {
        if n < MaxAttempts - 1 {
          assert 0 <= n < 0 + r.polls - 1;
        }
      }
    } else {
      var p := Poll(taskId, replies, r.polls - 1);
      assert p == Ok(r.end.info);
      assert IsCompleted(p.value.status) || IsFailed(p.value.status);
      assert 0 <= r.polls - 1 < MaxAttempts && Terminal(taskId, replies, r.polls - 1);
    }
  }

  /**
   * `waitForTaskCompletion`: at most 120 polls; the first COMPLETED/已完成
   * status returns the task, the first FAILED/失败 returns null at once, an
   * erroring poll only uses up an attempt, and running out of attempts
   * returns null.
   */
  function WaitForTaskCompletion(taskId: string, replies: Script<Reply<TaskInfo>>): (r: Watch)
    ensures 1 <= r.polls <= MaxAttempts
    ensures forall n :: 0 <= n < r.polls - 1 ==> !Terminal(taskId, replies, n)
    ensures r.Result().Some? <==> Terminal(taskId, replies, r.polls - 1) && IsCompleted(Poll(taskId, replies, r.polls - 1).value.status)
    ensures r.Result().Some? ==> Poll(taskId, replies, r.polls - 1) == Ok(r.Result().value)
    ensures r.end.TimedOut? <==> forall n :: 0 <= n < MaxAttempts ==> !Terminal(taskId, replies, n)
    ensures r.end.Completed? ==> Poll(taskId, replies, r.polls - 1) == Ok(r.end.info) && IsCompleted(r.end.info.status)
    ensures r.end.FailedStatus? ==> Poll(taskId, replies, r.polls - 1) == Ok(r.end.info) && IsFailed(r.end.info.status)
    ensures r.end.TimedOut? ==> r.polls == MaxAttempts
    ensures r.waits == if r.end.TimedOut? then r.polls else r.polls - 1
  {
    WatchTimesOut(taskId, replies);
    WatchFrom(0, taskId, replies)
  }
}
