/** Running one task, and the sequential loop `execute_parallel` falls back on when
    orchestration is disabled. The registered callback is an abstract outcome supplied
    per run, and the clock readings are inputs. */
module Execution {
  import opened Common
  import opened Agents
  import opened Tasks

  /** The clock readings one execution takes: when it starts, when it completes, when the
      interaction is logged, and the duration in seconds the two ISO stamps denote. */
  datatype Clock = Clock(startedAt: string, completedAt: string, loggedAt: string, seconds: real)

  /** One execution's inputs: what the agent's callback does, if one is registered, and
      the clock readings. */
  datatype Run = Run(callback: Result<Payload>, clock: Clock)

  /** A record of the interaction log. */
  datatype Interaction = Interaction(
    timestamp: string,
    taskId: string,
    taskType: string,
    description: string,
    agent: Option<AgentType>,
    status: string,
    duration: Option<real>,
    success: bool)

  /** The part of the orchestrator's state that executing tasks changes. */
  datatype Ledger = Ledger(active: map<string, Task>, completed: set<string>, log: seq<Interaction>)

  /** The result of a task whose agent has no registered callback. */
  function DefaultResult(): Payload
  {
    map["status" := Text("completed"), "message" := Text("Task completed")]
  }

  /** The failure descriptor stored as the result of a failed task. */
  function ErrorResult(message: string): Payload
  {
    map["error" := Text(message)]
  }

  /** A callback is used when the task has an agent with a registered callback. */
  predicate HasCallback(t: Task, callbacks: set<AgentType>)
  {
    t.assignedAgent.Some? && t.assignedAgent.value in callbacks
  }

  /** What executing `t` yields: the callback's outcome, or the default result. */
  function OutcomeOf(t: Task, callbacks: set<AgentType>, run: Run): Result<Payload>
  {
    if HasCallback(t, callbacks) then run.callback else Ok(DefaultResult())
  }

  /** `_calculate_duration`: defined only once both stamps are set and non-empty. */
  function Duration(t: Task, seconds: real): Option<real>
  {
    if Truthy(t.startedAt) && Truthy(t.completedAt) then Some(seconds) else None
  }

  /** The record `_log_interaction` appends for task `t`. */
  function InteractionOf(t: Task, loggedAt: string, seconds: real): Interaction
  {
    Interaction(loggedAt, t.id, t.taskType, t.description, t.assignedAgent, t.status,
                Duration(t, seconds), t.status == Completed)
  }

  /** The task object after `execute_task_async`: started, then completed with the
      callback's payload, or failed with the error descriptor. Only the four run fields
      change, and the status tells which way the callback went. */
  function Attempt(t: Task, callbacks: set<AgentType>, run: Run): (r: Task)
    ensures r == t.(status := r.status, startedAt := r.startedAt, completedAt := r.completedAt, result := r.result)
    ensures r.startedAt == Some(Stamp(run.clock.startedAt))
    ensures r.status == Completed <==> OutcomeOf(t, callbacks, run).Ok?
    ensures r.status == Failed <==> OutcomeOf(t, callbacks, run).Raised?
    ensures r.status == Completed ==> r.completedAt == Some(Stamp(run.clock.completedAt))
    ensures r.status == Failed ==> r.completedAt == t.completedAt
  {
    var started := t.(status := InProgress, startedAt := Some(Stamp(run.clock.startedAt)));
    match OutcomeOf(t, callbacks, run)
    case Ok(p) => started.(status := Completed, completedAt := Some(Stamp(run.clock.completedAt)), result := Some(p))
    case Raised(msg) => started.(status := Failed, result := Some(ErrorResult(msg)))
  }

  /** The task object a value `t` stands for: the active entry under its id when that id
      is active (the two are one object), else `t` itself. */
  function Current(active: map<string, Task>, t: Task): Task
  {
    if t.id in active then active[t.id] else t
  }

  /** Every task value of `tasks` whose id is active is that active entry. */
  predicate Bound(active: map<string, Task>, tasks: seq<Task>)
  {
    forall i :: 0 <= i < |tasks| && tasks[i].id in active ==> active[tasks[i].id] == tasks[i]
  }

  /** `execute_task_async` on the ledger. The object it runs is the one `t` stands for,
      so an active entry is updated in place; the id joins the completed set on success
      and the interaction is logged when learning is on. No task enters or leaves the
      table, no entry changes its id or agent, and nothing but `t.id` is completed. */
  function Execute(l: Ledger, t: Task, callbacks: set<AgentType>, learning: bool, run: Run): (r: Ledger)
    ensures r.active.Keys == l.active.Keys
    ensures forall k :: k in l.active ==> r.active[k].id == l.active[k].id && r.active[k].assignedAgent == l.active[k].assignedAgent
    ensures l.completed <= r.completed <= l.completed + {t.id}
    ensures |l.log| <= |r.log| <= |l.log| + 1 && r.log[..|l.log|] == l.log
  {
    var cur := Current(l.active, t);
    var done := Attempt(cur, callbacks, run);
    var active := if t.id in l.active then l.active[t.id := done] else l.active;
    if OutcomeOf(cur, callbacks, run).Ok? then
      Ledger(active, l.completed + {t.id},
             if learning then l.log + [InteractionOf(done, Stamp(run.clock.loggedAt), run.clock.seconds)] else l.log)
    else
      Ledger(active, l.completed, l.log)
  }

  /** Success and failure of one execution. On success the task ends "completed" with the
      payload as its result and its id joins the completed set; on failure it ends
      "failed" with `{"error": msg}`, the completed set and the log are untouched and the
      failure is passed on. Either way no task enters or leaves the active table and no
      other entry changes. */
  lemma ExecuteOutcome(l: Ledger, t: Task, callbacks: set<AgentType>, learning: bool, run: Run)
    requires t.id in l.active ==> l.active[t.id] == t
    ensures var l' := Execute(l, t, callbacks, learning, run);
            var done := Attempt(t, callbacks, run);
            && l'.active.Keys == l.active.Keys
            && (t.id in l.active ==> l'.active[t.id] == done)
            && (forall k :: k in l.active && k != t.id ==> l'.active[k] == l.active[k])
            && done.startedAt == Some(Stamp(run.clock.startedAt))
            && done.id == t.id
            && match OutcomeOf(t, callbacks, run)
               case Ok(p) =>
                 && done.status == Completed && done.result == Some(p)
                 && l'.completed == l.completed + {t.id}
                 && l'.log == (if learning then l.log + [InteractionOf(done, Stamp(run.clock.loggedAt), run.clock.seconds)] else l.log)
               case Raised(msg) =>
                 && done.status == Failed && done.result == Some(ErrorResult(msg))
                 && l'.completed == l.completed && l'.log == l.log
  {
  }

  /** A logged interaction records a successful run of `t` whose duration is known:
      both stamps were just set, and a UTC stamp is never empty. */
  lemma LoggedRunsSucceeded(l: Ledger, t: Task, callbacks: set<AgentType>, run: Run)
    requires t.id in l.active ==> l.active[t.id] == t
    requires |Execute(l, t, callbacks, true, run).log| > |l.log|
    ensures var rec := Execute(l, t, callbacks, true, run).log[|l.log|];
            && OutcomeOf(t, callbacks, run).Ok?
            && rec.success && rec.status == Completed && rec.taskId == t.id
            && rec.duration == Some(run.clock.seconds)
  {
  }

  /** The sequential branch of `execute_parallel`: tasks run one after the other in input
      order; the first failure is re-raised and the later tasks are not run. */
  function ExecuteAll(l: Ledger, tasks: seq<Task>, runs: seq<Run>, callbacks: set<AgentType>, learning: bool)
    : (r: (Ledger, Result<seq<Payload>>))
    requires |runs| == |tasks|
    ensures r.0.active.Keys == l.active.Keys
    ensures forall k :: k in l.active ==> r.0.active[k].id == l.active[k].id && r.0.active[k].assignedAgent == l.active[k].assignedAgent
  {
    if tasks == [] then (l, Ok([]))
    else
      var n := |tasks| - 1;
      var (before, r) := ExecuteAll(l, tasks[..n], runs[..n], callbacks, learning);
      if r.Raised? then (before, r)
      else
        var after := Execute(before, tasks[n], callbacks, learning, runs[n]);
        match OutcomeOf(Current(before.active, tasks[n]), callbacks, runs[n])
        case Ok(p) => (after, Ok(r.value + [p]))
        case Raised(msg) => (after, Raised(msg))
  }

  /** The ids of the first `k` tasks are the same in any prefix that holds them. */
  lemma IdsUpToPrefix(tasks: seq<Task>, n: int, k: int)
    requires 0 <= k <= n <= |tasks|
    ensures IdsUpTo(tasks[..n], k) == IdsUpTo(tasks, k)
  {
    assert forall i :: 0 <= i < k ==> tasks[..n][i] == tasks[i];
  }

  /** Tasks that share their agent have the same outcome. */
  lemma SameAgentSameOutcome(a: Task, b: Task, callbacks: set<AgentType>, run: Run)
    requires a.assignedAgent == b.assignedAgent
    ensures OutcomeOf(a, callbacks, run) == OutcomeOf(b, callbacks, run)
  {
  }

  /** After any prefix of the loop, the object task `i` stands for still has the agent
      the task was passed with, so it has the outcome the task value predicts. */
  lemma CurrentOutcome(l: Ledger, tasks: seq<Task>, runs: seq<Run>, callbacks: set<AgentType>, learning: bool, n: nat, i: nat)
    requires |runs| == |tasks| && n <= |tasks| && i < |tasks|
    requires Bound(l.active, tasks)
    ensures OutcomeOf(Current(ExecuteAll(l, tasks[..n], runs[..n], callbacks, learning).0.active, tasks[i]), callbacks, runs[i])
            == OutcomeOf(tasks[i], callbacks, runs[i])
  {
    var before := ExecuteAll(l, tasks[..n], runs[..n], callbacks, learning).0;
    SameAgentSameOutcome(Current(before.active, tasks[i]), tasks[i], callbacks, runs[i]);
  }

  /** The ids of the first `k` tasks. */
  function IdsUpTo(tasks: seq<Task>, k: int): set<string>
    requires 0 <= k <= |tasks|
  {
    set i | 0 <= i < k :: tasks[i].id
  }

  /** When the sequential loop returns, it returns one result per task, in input order,
      each the outcome of that task's run, and every task id has joined the completed
      set. */
  lemma ExecuteAllReturns(l: Ledger, tasks: seq<Task>, runs: seq<Run>, callbacks: set<AgentType>, learning: bool)
    requires |runs| == |tasks|
    requires Bound(l.active, tasks)
    requires ExecuteAll(l, tasks, runs, callbacks, learning).1.Ok?
    ensures var (l', r) := ExecuteAll(l, tasks, runs, callbacks, learning);
            && |r.value| == |tasks|
            && (forall i :: 0 <= i < |tasks| ==> OutcomeOf(tasks[i], callbacks, runs[i]) == Ok(r.value[i]))
            && l'.completed == l.completed + IdsUpTo(tasks, |tasks|)
  {
    ExecuteAllResults(l, tasks, runs, callbacks, learning);
    ExecuteAllCompletes(l, tasks, runs, callbacks, learning);
  }

  /** The results of a loop that returns, one per task and in order. */
  lemma {:induction false} ExecuteAllResults(l: Ledger, tasks: seq<Task>, runs: seq<Run>, callbacks: set<AgentType>, learning: bool)
    requires |runs| == |tasks|
    requires Bound(l.active, tasks)
    requires ExecuteAll(l, tasks, runs, callbacks, learning).1.Ok?
    ensures |ExecuteAll(l, tasks, runs, callbacks, learning).1.value| == |tasks|
    ensures forall i :: 0 <= i < |tasks| ==>
              OutcomeOf(tasks[i], callbacks, runs[i]) == Ok(ExecuteAll(l, tasks, runs, callbacks, learning).1.value[i])
  {
    if tasks != [] {
      var n := |tasks| - 1;
      assert Bound(l.active, tasks[..n]);
      ExecuteAllResults(l, tasks[..n], runs[..n], callbacks, learning);
      CurrentOutcome(l, tasks, runs, callbacks, learning, n, n);
    }
  }

  /** The completed set after a loop that returns gained exactly the tasks' ids. */
  lemma {:induction false} ExecuteAllCompletes(l: Ledger, tasks: seq<Task>, runs: seq<Run>, callbacks: set<AgentType>, learning: bool)
    requires |runs| == |tasks|
    requires ExecuteAll(l, tasks, runs, callbacks, learning).1.Ok?
    ensures ExecuteAll(l, tasks, runs, callbacks, learning).0.completed == l.completed + IdsUpTo(tasks, |tasks|)
  {
    if tasks != [] {
      var n := |tasks| - 1;
      ExecuteAllCompletes(l, tasks[..n], runs[..n], callbacks, learning);
      IdsUpToPrefix(tasks, n, n);
      assert IdsUpTo(tasks, n + 1) == IdsUpTo(tasks, n) + {tasks[n].id};
    }
  }

  /** When the sequential loop raises, some task `k` raised that very message after every
      task before it succeeded, and exactly the ids of those earlier tasks were added to
      the completed set. */
  lemma {:induction false} ExecuteAllRaises(l: Ledger, tasks: seq<Task>, runs: seq<Run>, callbacks: set<AgentType>, learning: bool)
    returns (k: nat)
    requires |runs| == |tasks|
    requires Bound(l.active, tasks)
    requires ExecuteAll(l, tasks, runs, callbacks, learning).1.Raised?
    ensures k < |tasks|
    ensures forall i :: 0 <= i < k ==> OutcomeOf(tasks[i], callbacks, runs[i]).Ok?
    ensures OutcomeOf(tasks[k], callbacks, runs[k]) == Raised(ExecuteAll(l, tasks, runs, callbacks, learning).1.message)
    ensures ExecuteAll(l, tasks, runs, callbacks, learning).0.completed == l.completed + IdsUpTo(tasks, k)
  {
    var n := |tasks| - 1;
    assert Bound(l.active, tasks[..n]);
    if ExecuteAll(l, tasks[..n], runs[..n], callbacks, learning).1.Raised? {
      k := ExecuteAllRaises(l, tasks[..n], runs[..n], callbacks, learning);
      assert forall i :: 0 <= i < k ==> tasks[..n][i] == tasks[i] && runs[..n][i] == runs[i];
      assert tasks[..n][k] == tasks[k] && runs[..n][k] == runs[k];
      IdsUpToPrefix(tasks, n, k);
    } else {
      ExecuteAllResults(l, tasks[..n], runs[..n], callbacks, learning);
      assert forall i :: 0 <= i < n ==> tasks[..n][i] == tasks[i] && runs[..n][i] == runs[i];
      ExecuteAllRaisesLast(l, tasks, runs, callbacks, learning);
      k := n;
    }
  }

  /** A loop whose every task but the last succeeded raises the last task's failure,
      having completed the earlier ids. */
  lemma ExecuteAllRaisesLast(l: Ledger, tasks: seq<Task>, runs: seq<Run>, callbacks: set<AgentType>, learning: bool)
    requires |runs| == |tasks| && tasks != []
    requires Bound(l.active, tasks)
    requires ExecuteAll(l, tasks[..|tasks| - 1], runs[..|tasks| - 1], callbacks, learning).1.Ok?
    requires ExecuteAll(l, tasks, runs, callbacks, learning).1.Raised?
    ensures OutcomeOf(tasks[|tasks| - 1], callbacks, runs[|tasks| - 1])
         == Raised(ExecuteAll(l, tasks, runs, callbacks, learning).1.message)
    ensures ExecuteAll(l, tasks, runs, callbacks, learning).0.completed == l.completed + IdsUpTo(tasks, |tasks| - 1)
  {
    var n := |tasks| - 1;
    var (before, r) := ExecuteAll(l, tasks[..n], runs[..n], callbacks, learning);
    var cur := Current(before.active, tasks[n]);
    CurrentOutcome(l, tasks, runs, callbacks, learning, n, n);
    assert OutcomeOf(cur, callbacks, runs[n]).Raised?;
    assert ExecuteAll(l, tasks, runs, callbacks, learning)
        == (Execute(before, tasks[n], callbacks, learning, runs[n]), Raised(OutcomeOf(cur, callbacks, runs[n]).message));
    assert Execute(before, tasks[n], callbacks, learning, runs[n]).completed == before.completed;
    ExecuteAllCompletes(l, tasks[..n], runs[..n], callbacks, learning);
    IdsUpToPrefix(tasks, n, n);
  }

  /** Once a prefix of the tasks has raised, the remaining tasks change nothing: the loop
      has already left. */
  lemma {:induction false} ExecuteAllStopsAtFailure(l: Ledger, tasks: seq<Task>, runs: seq<Run>, callbacks: set<AgentType>,
                                                    learning: bool, k: nat)
    requires |runs| == |tasks| && k <= |tasks|
    requires ExecuteAll(l, tasks[..k], runs[..k], callbacks, learning).1.Raised?
    ensures ExecuteAll(l, tasks, runs, callbacks, learning) == ExecuteAll(l, tasks[..k], runs[..k], callbacks, learning)
  {
    if k < |tasks| {
      var n := |tasks| - 1;
      assert tasks[..n][..k] == tasks[..k] && runs[..n][..k] == runs[..k];
      ExecuteAllStopsAtFailure(l, tasks[..n], runs[..n], callbacks, learning, k);
    } else {
      assert tasks[..k] == tasks && runs[..k] == runs;
    }
  }
}
