/** The agent orchestrator: the table of active tasks, the completed set, the message
    queue, the registered callbacks and the interaction log, updated in place by its
    methods. Python's insertion-ordered task dictionary is the map `activeTasks` together
    with `taskOrder`, the order in which its keys were first inserted. */
module Orchestration {
  import opened Common
  import opened Text
  import opened Sorting
  import opened Agents
  import opened Routing
  import opened Tasks
  import opened Execution

  /** The `agents.orchestration` section of the configuration; a missing key is `None`. */
  datatype OrchestrationConfig = OrchestrationConfig(
    maxParallel: Option<int>,
    handoffTimeout: Option<int>,
    enabled: Option<bool>,
    learningEnabled: Option<bool>)

  function GetOr<T>(o: Option<T>, default: T): (r: T)
    ensures o.Some? ==> r == o.value
    ensures o.None? ==> r == default
  {
    if o.Some? then o.value else default
  }

  /** The settings `__init__` fixes: the agent table and the orchestration flags. No
      method after the constructor changes them. */
  datatype Settings = Settings(
    agents: map<AgentType, AgentInfo>,
    maxParallel: int,
    handoffTimeout: int,
    orchestrationEnabled: bool,
    learningEnabled: bool)

  /** The insertion order of a task table whose order was `order` after the ids `ids` are
      filed one after the other: an id already present keeps its place, a new one goes
      last. */
  function FilingOrder(order: seq<string>, ids: seq<string>): seq<string>
  {
    if ids == [] then order
    else
      var before := FilingOrder(order, ids[..|ids| - 1]);
      var k := ids[|ids| - 1];
      if k in before then before else before + [k]
  }

  /** Filing distinct ids none of which is present appends them, in order. */
  lemma {:induction false} FilingFreshIds(order: seq<string>, ids: seq<string>)
    requires Distinct(ids)
    requires forall i :: 0 <= i < |ids| ==> ids[i] !in order
    ensures FilingOrder(order, ids) == order + ids
  {
    if ids != [] {
      var n := |ids| - 1;
      assert Distinct(ids[..n]);
      FilingFreshIds(order, ids[..n]);
      assert ids[n] !in ids[..n];
      assert ids == ids[..n] + [ids[n]];
    }
  }

  /** The sub-tasks of a decomposition whose ids are all new go to the end of the
      insertion order, in the order design, implementation, testing. */
  lemma DecompositionFiledLast(order: seq<string>, keys: set<string>, parent: Task)
    requires Elems(order) == keys
    requires forall j :: 0 <= j < |Decomposition(parent)| ==> Decomposition(parent)[j].id !in keys
    ensures FilingOrder(order, Ids(Decomposition(parent))) == order + Ids(Decomposition(parent))
  {
    var subs := Decomposition(parent);
    if parent.taskType == "feature" {
      DecompositionShape(parent);
      IdsAt(subs);
      assert forall x :: x in order ==> x in Elems(order);
      FilingFreshIds(order, Ids(subs));
    } else {
      assert Ids(subs) == [];
    }
  }

  /** The sort key of `list_tasks`. */
  function PriorityOf(t: Task): string
  {
    t.priority
  }

  /** `if status:` in `list_tasks`: an absent or empty filter keeps every task. */
  predicate Selected(t: Task, status: Option<string>)
  {
    !Truthy(status) || t.status == status.value
  }

  /** The tasks of `ts` that `status` selects, in order. */
  function WithStatus(ts: seq<Task>, status: Option<string>): (r: seq<Task>)
    ensures |r| <= |ts|
    ensures forall t :: t in r <==> t in ts && Selected(t, status)
  {
    if ts == [] then []
    else
      var rest := WithStatus(ts[1..], status);
      assert forall t :: t in ts <==> t == ts[0] || t in ts[1..];
      if Selected(ts[0], status) then [ts[0]] + rest else rest
  }

  /** The tasks of `active` under `ids`, in the order of `ids`. */
  function TasksAt(active: map<string, Task>, ids: seq<string>): (r: seq<Task>)
    requires Elems(ids) <= active.Keys
    ensures |r| == |ids| && forall i :: 0 <= i < |ids| ==> r[i] == active[ids[i]]
  {
    if ids == [] then []
    else
      assert ids[0] in Elems(ids);
      assert Elems(ids[1..]) <= Elems(ids) by {
        forall x | x in Elems(ids[1..]) ensures x in Elems(ids) {
          var i :| 0 <= i < |ids[1..]| && ids[1..][i] == x;
          assert ids[i + 1] == x;
        }
      }
      [active[ids[0]]] + TasksAt(active, ids[1..])
  }

  class Orchestrator {
    var agents: map<AgentType, AgentInfo>
    var activeTasks: map<string, Task>
    var taskOrder: seq<string>
    var completedTasks: set<string>
    var messageQueue: seq<AgentMessage>
    /** The pools with a registered callback; what a callback does is an input of each run. */
    var callbacks: set<AgentType>
    var maxParallel: int
    var handoffTimeout: int
    var orchestrationEnabled: bool
    var learningEnabled: bool
    var interactionLog: seq<Interaction>

    /** `taskOrder` lists each active id once, and every task is filed under its own id. */
    ghost predicate Valid()
      reads this
    {
      && Distinct(taskOrder)
      && Elems(taskOrder) == activeTasks.Keys
      && (forall k :: k in activeTasks ==> activeTasks[k].id == k)
    }

    /** The settings the constructor fixed. */
    function Config(): Settings
      reads this
    {
      Settings(agents, maxParallel, handoffTimeout, orchestrationEnabled, learningEnabled)
    }

    /** What executing tasks changes. */
    function State(): Ledger
      reads this
    {
      Ledger(activeTasks, completedTasks, interactionLog)
    }

    /** `__init__`, given the agent entries and orchestration section of the parsed
        configuration. */
    constructor(entries: seq<AgentEntry>, config: OrchestrationConfig)
      ensures Valid()
      ensures (forall i :: 0 <= i < |entries| ==> EntryAgent(entries[i]).None?) ==> agents == FallbackAgents()
      ensures (exists i :: 0 <= i < |entries| && EntryAgent(entries[i]).Some?) ==>
                && (forall a :: a in agents <==> NamedBefore(entries, a, |entries|))
                && (forall i :: 0 <= i < |entries| && EntryAgent(entries[i]).Some? ==>
                      LastNamingBefore(entries, i, |entries|) ==>
                      var a := EntryAgent(entries[i]).value;
                      a in agents && agents[a] == InfoFromEntry(entries[i], a))
      ensures activeTasks == map[] && taskOrder == [] && completedTasks == {}
      ensures messageQueue == [] && callbacks == {} && interactionLog == []
      ensures maxParallel == GetOr(config.maxParallel, 3)
      ensures handoffTimeout == GetOr(config.handoffTimeout, 300)
      ensures orchestrationEnabled == GetOr(config.enabled, true)
      ensures learningEnabled == GetOr(config.learningEnabled, false)
    {
      var loaded := LoadAvailableAgents(entries);
      agents := loaded;
      activeTasks := map[];
      taskOrder := [];
      completedTasks := {};
      messageQueue := [];
      callbacks := {};
      maxParallel := GetOr(config.maxParallel, 3);
      handoffTimeout := GetOr(config.handoffTimeout, 300);
      orchestrationEnabled := GetOr(config.enabled, true);
      learningEnabled := GetOr(config.learningEnabled, false);
      interactionLog := [];
    }

    /** `active_tasks[t.id] = t`: a new id is appended to the insertion order, an existing
        one keeps its place. */
    method Put(t: Task)
      requires Valid()
      modifies this
      ensures Valid()
      ensures activeTasks == old(activeTasks)[t.id := t]
      ensures taskOrder == if t.id in old(activeTasks) then old(taskOrder) else old(taskOrder) + [t.id]
      ensures completedTasks == old(completedTasks) && messageQueue == old(messageQueue)
      ensures interactionLog == old(interactionLog) && callbacks == old(callbacks)
      ensures Config() == old(Config())
    {
      if t.id !in activeTasks {
        ElemsAppend(taskOrder, t.id);
        taskOrder := taskOrder + [t.id];
      }
      activeTasks := activeTasks[t.id := t];
    }

    /** `create_task`: a pending task of the given kind, routed by `assign_agent`, filed
        under its id (the generated uuid prefix is the input `id`). */
    method CreateTask(id: string, description: string, taskType: string := "feature",
                      priority: string := "medium", metadata: Payload := map[]) returns (t: Task)
      requires Valid()
      modifies this
      ensures Valid()
      ensures t.id == id && t.description == description && t.taskType == taskType
      ensures t.priority == priority && t.metadata == metadata
      ensures t.status == Pending && t.assignedAgent == Some(AssignAgent(description, taskType))
      ensures t.dependencies == [] && t.subtasks == [] && t.messages == []
      ensures t.startedAt.None? && t.completedAt.None? && t.result.None?
      ensures activeTasks == old(activeTasks)[id := t]
      ensures taskOrder == if id in old(activeTasks) then old(taskOrder) else old(taskOrder) + [id]
      ensures completedTasks == old(completedTasks) && messageQueue == old(messageQueue)
      ensures interactionLog == old(interactionLog) && callbacks == old(callbacks)
      ensures Config() == old(Config())
    {
      t := NewTask(id, description, taskType, priority, Some(AssignAgent(description, taskType)), metadata);
      Put(t);
    }

    /** `update_task_status`: an active task gets the new status and is returned; an
        unknown id yields `None` and changes nothing. */
    method UpdateTaskStatus(id: string, status: string) returns (r: Option<Task>)
      requires Valid()
      modifies this
      ensures Valid()
      ensures id !in old(activeTasks) ==> r.None? && activeTasks == old(activeTasks)
      ensures id in old(activeTasks) ==>
                && r == Some(old(activeTasks)[id].(status := status))
                && activeTasks == old(activeTasks)[id := r.value]
      ensures taskOrder == old(taskOrder) && completedTasks == old(completedTasks)
      ensures messageQueue == old(messageQueue) && interactionLog == old(interactionLog)
      ensures callbacks == old(callbacks) && Config() == old(Config())
    {
      if id in activeTasks {
        var t := activeTasks[id].(status := status);
        activeTasks := activeTasks[id := t];
        r := Some(t);
      } else {
        r := None;
      }
    }

    /** The active tasks in insertion order. */
    function Listing(): (r: seq<Task>)
      requires Valid()
      reads this
      ensures forall t :: t in r <==> t in activeTasks.Values
    {
      var r := TasksAt(activeTasks, taskOrder);
      assert forall t :: t in activeTasks.Values ==> t in r by {
        forall t | t in activeTasks.Values ensures t in r {
          var k :| k in activeTasks && activeTasks[k] == t;
          assert k in Elems(taskOrder);
          var i :| 0 <= i < |taskOrder| && taskOrder[i] == k;
          assert r[i] == t;
        }
      }
      r
    }

    /** `list_tasks`: exactly the active tasks `status` selects, in descending order of
        their priority string, each exactly once. */
    function ListTasks(status: Option<string> := None): (r: seq<Task>)
      requires Valid()
      reads this
      ensures forall t :: t in r <==> t in activeTasks.Values && Selected(t, status)
      ensures multiset(r) == multiset(WithStatus(Listing(), status))
      ensures SortedBy(r, PriorityOf, true)
    {
      var r := SortBy(WithStatus(Listing(), status), PriorityOf, true);
      SameElements(r, WithStatus(Listing(), status));
      r
    }

    /** `register_agent_callback`: the pool has a callback from now on. */
    method RegisterAgentCallback(a: AgentType)
      modifies this
      ensures callbacks == old(callbacks) + {a}
      ensures activeTasks == old(activeTasks) && taskOrder == old(taskOrder)
      ensures completedTasks == old(completedTasks) && interactionLog == old(interactionLog)
      ensures messageQueue == old(messageQueue) && Config() == old(Config())
    {
      callbacks := callbacks + {a};
    }

    /** `_log_interaction`: one record for `t` at the end of the log. */
    method LogInteraction(t: Task, loggedAt: string, seconds: real)
      modifies this
      ensures interactionLog == old(interactionLog) + [InteractionOf(t, Stamp(loggedAt), seconds)]
      ensures activeTasks == old(activeTasks) && taskOrder == old(taskOrder)
      ensures completedTasks == old(completedTasks) && callbacks == old(callbacks)
      ensures messageQueue == old(messageQueue) && Config() == old(Config())
    {
      interactionLog := interactionLog + [InteractionOf(t, Stamp(loggedAt), seconds)];
    }

    /** `execute_task_async` on task `t`. The object it runs is the one `t` stands for:
        the active task under `t.id` when there is one, which is then updated in place.
        Returns the outcome (a raised failure is `Raised`) and the task as it ends. */
    method ExecuteTask(t: Task, run: Run) returns (r: Result<Payload>, done: Task)
      requires Valid()
      modifies this
      ensures Valid()
      ensures r == OutcomeOf(Current(old(activeTasks), t), callbacks, run)
      ensures done == Attempt(Current(old(activeTasks), t), callbacks, run)
      ensures State() == Execute(old(State()), t, callbacks, learningEnabled, run)
      ensures taskOrder == old(taskOrder) && callbacks == old(callbacks)
      ensures messageQueue == old(messageQueue) && Config() == old(Config())
    {
      var cur := if t.id in activeTasks then activeTasks[t.id] else t;
      var started := cur.(status := InProgress, startedAt := Some(Stamp(run.clock.startedAt)));
      r := if HasCallback(cur, callbacks) then run.callback else Ok(DefaultResult());
      match r {
        case Ok(p) =>
          done := started.(status := Completed, completedAt := Some(Stamp(run.clock.completedAt)), result := Some(p));
        case Raised(msg) =>
          done := started.(status := Failed, result := Some(ErrorResult(msg)));
      }
      if t.id in activeTasks {
        activeTasks := activeTasks[t.id := done];
      }
      if r.Ok? {
        completedTasks := completedTasks + {t.id};
        if learningEnabled {
          LogInteraction(done, run.clock.loggedAt, run.clock.seconds);
        }
      }
    }

    /** The sequential branch of `execute_parallel`, taken when orchestration is
        disabled: each task runs in turn with its own run inputs; the first failure is
        raised and the remaining tasks are not run. */
    method ExecuteSequentially(tasks: seq<Task>, runs: seq<Run>) returns (r: Result<seq<Payload>>)
      requires Valid()
      requires !orchestrationEnabled
      requires |runs| == |tasks|
      modifies this
      ensures Valid()
      ensures (State(), r) == ExecuteAll(old(State()), tasks, runs, callbacks, learningEnabled)
      ensures taskOrder == old(taskOrder) && callbacks == old(callbacks)
      ensures messageQueue == old(messageQueue) && Config() == old(Config())
    {
      var results: seq<Payload> := [];
      var i := 0;
      while i < |tasks|
        invariant 0 <= i <= |tasks|
        invariant Valid()
        invariant (State(), Ok(results)) == ExecuteAll(old(State()), tasks[..i], runs[..i], callbacks, learningEnabled)
        invariant taskOrder == old(taskOrder) && callbacks == old(callbacks)
        invariant messageQueue == old(messageQueue) && Config() == old(Config())
      {
        assert tasks[..i + 1][..i] == tasks[..i] && runs[..i + 1][..i] == runs[..i];
        var outcome, _ := ExecuteTask(tasks[i], runs[i]);
        assert tasks[..i + 1][i] == tasks[i] && runs[..i + 1][i] == runs[i];
        if outcome.Raised? {
          r := Raised(outcome.message);
          ExecuteAllStopsAtFailure(old(State()), tasks, runs, callbacks, learningEnabled, i + 1);
          return;
        }
        results := results + [outcome.value];
        i := i + 1;
      }
      assert tasks[..i] == tasks && runs[..i] == runs;
      r := Ok(results);
    }

    /** `send_message`: the message joins the end of the queue. */
    method SendMessage(from: AgentType, to: AgentType, messageType: MessageType, content: Payload,
                       timestamp: string, messageId: string) returns (m: AgentMessage)
      modifies this
      ensures m == AgentMessage(from, to, messageType, content, timestamp, messageId)
      ensures messageQueue == old(messageQueue) + [m]
      ensures activeTasks == old(activeTasks) && taskOrder == old(taskOrder)
      ensures completedTasks == old(completedTasks) && interactionLog == old(interactionLog)
      ensures callbacks == old(callbacks) && Config() == old(Config())
    {
      m := AgentMessage(from, to, messageType, content, timestamp, messageId);
      messageQueue := messageQueue + [m];
    }

    /** `_handle_handoff`. */
    method HandleHandoff(m: AgentMessage)
      requires Valid()
      modifies this
      ensures Valid()
      ensures activeTasks == ApplyHandoff(old(activeTasks), m)
      ensures taskOrder == old(taskOrder) && completedTasks == old(completedTasks)
      ensures messageQueue == old(messageQueue) && interactionLog == old(interactionLog)
      ensures callbacks == old(callbacks) && Config() == old(Config())
    {
      match HandoffTaskId(m)
      case Some(id) =>
        if id in activeTasks {
          var t := activeTasks[id];
          activeTasks := activeTasks[id := t.(assignedAgent := Some(m.toAgent), messages := t.messages + [m])];
        }
      case None =>
    }

    /** `process_messages`, draining the queue: every queued message is taken in FIFO
        order and returned; handoffs are applied, queries only logged. */
    method ProcessMessages() returns (processed: seq<AgentMessage>)
      requires Valid()
      modifies this
      ensures Valid()
      ensures processed == old(messageQueue) && messageQueue == []
      ensures activeTasks == ApplyMessages(old(activeTasks), processed)
      ensures taskOrder == old(taskOrder) && completedTasks == old(completedTasks)
      ensures interactionLog == old(interactionLog)
      ensures callbacks == old(callbacks) && Config() == old(Config())
    {
      processed := [];
      while messageQueue != []
        invariant Valid()
        invariant processed + messageQueue == old(messageQueue)
        invariant activeTasks == ApplyMessages(old(activeTasks), processed)
        invariant taskOrder == old(taskOrder) && completedTasks == old(completedTasks)
        invariant interactionLog == old(interactionLog)
        invariant callbacks == old(callbacks) && Config() == old(Config())
        decreases |messageQueue|
      {
        var m := messageQueue[0];
        messageQueue := messageQueue[1..];
        processed := processed + [m];
        assert processed[..|processed| - 1] == processed[..|processed| - 1];
        assert (processed[..|processed| - 1]) + [m] == processed;
        if m.messageType == HandoffMessage {
          HandleHandoff(m);
        }
      }
    }

    /** `for subtask in subtasks: active_tasks[subtask.id] = subtask`: the tasks are filed
        one after the other, each new id at the end of the insertion order. */
    method FileTasks(ts: seq<Task>)
      requires Valid()
      modifies this
      ensures Valid()
      ensures activeTasks == Inserted(old(activeTasks), ts)
      ensures taskOrder == FilingOrder(old(taskOrder), Ids(ts))
      ensures completedTasks == old(completedTasks) && interactionLog == old(interactionLog)
      ensures messageQueue == old(messageQueue) && callbacks == old(callbacks)
      ensures Config() == old(Config())
    {
      var i := 0;
      while i < |ts|
        invariant 0 <= i <= |ts|
        invariant Valid()
        invariant activeTasks == Inserted(old(activeTasks), ts[..i])
        invariant taskOrder == FilingOrder(old(taskOrder), Ids(ts[..i]))
        invariant completedTasks == old(completedTasks) && interactionLog == old(interactionLog)
        invariant messageQueue == old(messageQueue) && callbacks == old(callbacks)
        invariant Config() == old(Config())
      {
        assert ts[..i + 1][..i] == ts[..i];
        IdsOfPrefix(ts[..i + 1]);
        assert ts[i].id in taskOrder <==> ts[i].id in Elems(taskOrder);
        Put(ts[i]);
        i := i + 1;
      }
      assert ts[..i] == ts;
    }

    /** `decompose_task` on `parent`. The object it decomposes is the one `parent` stands
        for: the active task under its id when there is one, which then records its
        sub-task ids in place. The sub-tasks are filed after it, a new id at the end of
        the insertion order. */
    method DecomposeTask(parent: Task) returns (subs: seq<Task>, updated: Task)
      requires Valid()
      modifies this
      ensures Valid()
      ensures subs == Decomposition(Current(old(activeTasks), parent))
      ensures updated == Current(old(activeTasks), parent).(subtasks := Ids(subs))
      ensures activeTasks ==
                Inserted(if parent.id in old(activeTasks) then old(activeTasks)[parent.id := updated]
                         else old(activeTasks), subs)
      ensures taskOrder == FilingOrder(old(taskOrder), Ids(subs))
      ensures (forall i :: 0 <= i < |subs| ==> subs[i].id !in old(activeTasks)) ==>
                taskOrder == old(taskOrder) + Ids(subs)
      ensures completedTasks == old(completedTasks) && interactionLog == old(interactionLog)
      ensures messageQueue == old(messageQueue) && callbacks == old(callbacks)
      ensures Config() == old(Config())
    {
      var cur := if parent.id in activeTasks then activeTasks[parent.id] else parent;
      subs := Decomposition(cur);
      updated := cur.(subtasks := Ids(subs));
      if parent.id in activeTasks {
        activeTasks := activeTasks[parent.id := updated];
      }
      FileTasks(subs);
      if forall j :: 0 <= j < |subs| ==> subs[j].id !in old(activeTasks) {
        DecompositionFiledLast(old(taskOrder), old(activeTasks).Keys, cur);
      }
    }
  }

  /** Tasks of equal priority are listed in the order they were first filed. */
  lemma ListTasksKeepsFilingOrder(o: Orchestrator, status: Option<string>, p: string)
    requires o.Valid()
    ensures WithKey(o.ListTasks(status), PriorityOf, p) == WithKey(WithStatus(o.Listing(), status), PriorityOf, p)
  {
    SortIsStable(WithStatus(o.Listing(), status), PriorityOf, true, p);
  }

  /** Priorities are compared as strings, so the usual tiers are listed "medium" first,
      then "low", then "high". */
  lemma PriorityTiersInStringOrder()
    ensures InOrder("medium", "low", true) && !InOrder("low", "medium", true)
    ensures InOrder("low", "high", true) && !InOrder("high", "low", true)
  {
    assert Less("low", "medium") by { assert 'l' < 'm'; }
    assert Less("high", "low") by { assert 'h' < 'l'; }
  }
}
