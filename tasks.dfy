/** Tasks and the messages agents exchange about them, with the pure rules the
    orchestrator applies to them: the dependency gate, the fixed three-step
    decomposition of a feature, and the effect of a handoff message. */
module Tasks {
  import opened Common
  import opened Agents

  const Pending := "pending"
  const InProgress := "in_progress"
  const Completed := "completed"
  const Failed := "failed"

  datatype MessageType = HandoffMessage | QueryMessage | ResultMessage | StatusMessage | ErrorMessage

  /** A message between agents; its id and timestamp are generated by the sender and
      are inputs here. */
  datatype AgentMessage = AgentMessage(
    fromAgent: AgentType,
    toAgent: AgentType,
    messageType: MessageType,
    content: Payload,
    timestamp: string,
    messageId: string)

  /** A development task. `status` is a free string: the orchestrator writes "pending",
      "in_progress", "completed" and "failed", and `update_task_status` writes whatever it
      is given. `subtasks` holds the ids of the child tasks. */
  datatype Task = Task(
    id: string,
    description: string,
    taskType: string,
    priority: string,
    assignedAgent: Option<AgentType>,
    status: string,
    metadata: Payload,
    subtasks: seq<string>,
    dependencies: seq<string>,
    messages: seq<AgentMessage>,
    startedAt: Option<string>,
    completedAt: Option<string>,
    result: Option<Payload>)
  {
    /** `can_start`: every dependency has completed, so the gate is set inclusion. */
    predicate CanStart(completed: set<string>)
      ensures CanStart(completed) <==> Elems(dependencies) <= completed
    {
      AllInIsInclusion(dependencies, completed);
      AllIn(dependencies, completed)
    }
  }

  /** A task as the dataclass constructor builds it from its four required fields and
      the optional ones, every other field at its default. */
  function NewTask(id: string, description: string, taskType: string, priority: string,
                   assignedAgent: Option<AgentType> := None, metadata: Payload := map[],
                   dependencies: seq<string> := []): (t: Task)
    ensures t.status == Pending && t.subtasks == [] && t.messages == []
    ensures t.startedAt.None? && t.completedAt.None? && t.result.None?
  {
    Task(id, description, taskType, priority, assignedAgent, Pending, metadata, [],
         dependencies, [], None, None, None)
  }

  /** `all(dep_id in completed for dep_id in deps)`, scanning left to right. */
  function AllIn(deps: seq<string>, completed: set<string>): (r: bool)
    ensures r <==> forall i :: 0 <= i < |deps| ==> deps[i] in completed
  {
    if deps == [] then true
    else deps[0] in completed && AllIn(deps[1..], completed)
  }

  /** The scan succeeds exactly when every listed id is in the set. */
  lemma AllInIsInclusion(deps: seq<string>, completed: set<string>)
    ensures AllIn(deps, completed) <==> Elems(deps) <= completed
  {
    if Elems(deps) <= completed {
      forall i | 0 <= i < |deps| ensures deps[i] in completed {
        assert deps[i] in Elems(deps);
      }
    }
  }

  /** A task without dependencies may start at once, and a task that may start keeps
      that permission as the completed set grows. */
  lemma CanStartIsMonotone(t: Task, completed: set<string>, more: set<string>)
    ensures t.dependencies == [] ==> t.CanStart(completed)
    ensures t.CanStart(completed) && completed <= more ==> t.CanStart(more)
  {
  }

  // ---------------------------------------------------------------------------
  // decompose_task

  /** The sub-tasks `decompose_task` builds: a "feature" becomes design, implementation
      and testing steps chained by their dependencies; every other type yields none. */
  function Decomposition(parent: Task): (r: seq<Task>)
    ensures parent.taskType != "feature" <==> r == []
    ensures forall t :: t in r ==>
              && t.status == Pending && t.priority == parent.priority
              && t.metadata == map["parent_task" := Text(parent.id)]
  {
    if parent.taskType == "feature" then
      var arch := parent.id + "-arch";
      var impl := parent.id + "-impl";
      var test := parent.id + "-test";
      var meta := map["parent_task" := Text(parent.id)];
      [ NewTask(arch, "Design architecture for: " + parent.description, "design", parent.priority,
                Some(LeadArchitect), meta),
        NewTask(impl, "Implement: " + parent.description, "implementation", parent.priority,
                Some(BackendMaster), meta, [arch]),
        NewTask(test, "Test: " + parent.description, "testing", parent.priority,
                Some(QaSentinel), meta, [impl]) ]
    else []
  }

  /** The ids of a list of tasks, in order. */
  function Ids(ts: seq<Task>): seq<string>
  {
    seq(|ts|, i requires 0 <= i < |ts| => ts[i].id)
  }

  /** Reading the ids back one position at a time. */
  lemma IdsAt(ts: seq<Task>)
    ensures |Ids(ts)| == |ts| && forall i :: 0 <= i < |ts| ==> Ids(ts)[i] == ts[i].id
  {
  }

  /** A feature decomposes into exactly three steps with distinct ids, routed to the
      architect, the backend and QA in that order. */
  lemma DecompositionShape(parent: Task)
    requires parent.taskType == "feature"
    ensures var subs := Decomposition(parent);
            && |subs| == 3
            && Ids(subs) == [parent.id + "-arch", parent.id + "-impl", parent.id + "-test"]
            && Distinct(Ids(subs))
            && subs[0].assignedAgent == Some(LeadArchitect)
            && subs[1].assignedAgent == Some(BackendMaster)
            && subs[2].assignedAgent == Some(QaSentinel)
  {
    var n := |parent.id|;
    assert (parent.id + "-arch")[n + 1] == 'a';
    assert (parent.id + "-impl")[n + 1] == 'i';
    assert (parent.id + "-test")[n + 1] == 't';
  }

  /** The steps form the chain design <- implementation <- testing: listed in order, each
      step may start once the steps before it have completed, and not before its
      predecessor has. */
  lemma DecompositionIsAChain(parent: Task, completed: set<string>)
    requires parent.taskType == "feature"
    ensures var subs := Decomposition(parent);
            && subs[0].CanStart(completed)
            && (subs[1].CanStart(completed) <==> subs[0].id in completed)
            && (subs[2].CanStart(completed) <==> subs[1].id in completed)
  {
  }

  /** The table after `active_tasks[t.id] = t` for each `t` of `ts`, in order. */
  function Inserted(active: map<string, Task>, ts: seq<Task>): map<string, Task>
  {
    if ts == [] then active
    else Inserted(active, ts[..|ts| - 1])[ts[|ts| - 1].id := ts[|ts| - 1]]
  }

  lemma IdsOfPrefix(ts: seq<Task>)
    requires ts != []
    ensures Ids(ts) == Ids(ts[..|ts| - 1]) + [ts[|ts| - 1].id]
    ensures Elems(Ids(ts)) == Elems(Ids(ts[..|ts| - 1])) + {ts[|ts| - 1].id}
  {
    var n := |ts| - 1;
    assert Ids(ts) == Ids(ts[..n]) + [ts[n].id];
    ElemsAppend(Ids(ts[..n]), ts[n].id);
  }

  /** Inserting tasks by id adds exactly their ids as keys and leaves every entry under
      another id as it was. */
  lemma {:induction false} InsertedKeys(active: map<string, Task>, ts: seq<Task>)
    ensures Inserted(active, ts).Keys == active.Keys + Elems(Ids(ts))
    ensures forall k :: k in active && k !in Elems(Ids(ts)) ==> Inserted(active, ts)[k] == active[k]
  {
    if ts != [] {
      InsertedKeys(active, ts[..|ts| - 1]);
      IdsOfPrefix(ts);
    }
  }

  /** Each id ends up holding the last task inserted under it. */
  lemma {:induction false} InsertedLastWins(active: map<string, Task>, ts: seq<Task>, i: int)
    requires 0 <= i < |ts|
    requires forall j :: i < j < |ts| ==> ts[j].id != ts[i].id
    ensures ts[i].id in Inserted(active, ts) && Inserted(active, ts)[ts[i].id] == ts[i]
  {
    var n := |ts| - 1;
    if i < n {
      assert forall j :: i < j < n ==> ts[..n][j] == ts[j];
      InsertedLastWins(active, ts[..n], i);
      assert ts[..n][i] == ts[i];
    }
  }

  /** Filing a decomposition: a feature's three steps are added under their own ids and
      every other entry is kept; any other type leaves the table as it was. */
  lemma DecompositionFiled(active: map<string, Task>, parent: Task)
    ensures parent.taskType != "feature" ==> Inserted(active, Decomposition(parent)) == active
    ensures parent.taskType == "feature" ==>
              var subs := Decomposition(parent);
              var filed := Inserted(active, subs);
              && filed.Keys == active.Keys + {parent.id + "-arch", parent.id + "-impl", parent.id + "-test"}
              && (forall i :: 0 <= i < 3 ==> filed[subs[i].id] == subs[i])
              && (forall k :: k in active && k !in Elems(Ids(subs)) ==> filed[k] == active[k])
  {
    var subs := Decomposition(parent);
    InsertedKeys(active, subs);
    if parent.taskType == "feature" {
      DecompositionShape(parent);
      IdsAt(subs);
      assert Elems(Ids(subs)) == {parent.id + "-arch", parent.id + "-impl", parent.id + "-test"} by {
        assert Ids(subs) == [parent.id + "-arch", parent.id + "-impl", parent.id + "-test"];
      }
      forall i | 0 <= i < 3
        ensures Inserted(active, subs)[subs[i].id] == subs[i]
      {
        assert Ids(subs)[i] == subs[i].id;
        assert forall j :: i < j < 3 ==> Ids(subs)[j] != Ids(subs)[i];
        InsertedLastWins(active, subs, i);
      }
    }
  }

  // ---------------------------------------------------------------------------
  // Handoff messages

  /** The task a handoff names: `content["task_id"]` when it is a non-empty string. */
  function HandoffTaskId(m: AgentMessage): Option<string>
  {
    if "task_id" in m.content && m.content["task_id"].Text? && m.content["task_id"].text != "" then
      Some(m.content["task_id"].text)
    else None
  }

  /** `_handle_handoff`: an active task named by the message is reassigned to the
      message's recipient and records the message; anything else is left as it was. */
  function ApplyHandoff(active: map<string, Task>, m: AgentMessage): (r: map<string, Task>)
    ensures r.Keys == active.Keys
    ensures forall k :: k in active ==>
              r[k] == if HandoffTaskId(m) == Some(k)
                      then active[k].(assignedAgent := Some(m.toAgent), messages := active[k].messages + [m])
                      else active[k]
  {
    match HandoffTaskId(m)
    case Some(id) =>
      if id in active then
        active[id := active[id].(assignedAgent := Some(m.toAgent), messages := active[id].messages + [m])]
      else active
    case None => active
  }

  /** The handoff effect of processing `msgs` in FIFO order: handoffs are applied, queries
      and every other kind of message leave the tasks alone. */
  function ApplyMessages(active: map<string, Task>, msgs: seq<AgentMessage>): (r: map<string, Task>)
    ensures r.Keys == active.Keys
    ensures forall k :: k in active ==>
              r[k] == active[k].(assignedAgent := r[k].assignedAgent, messages := r[k].messages)
    ensures forall k :: k in active ==> active[k].messages <= r[k].messages
  {
    if msgs == [] then active
    else
      var before := ApplyMessages(active, msgs[..|msgs| - 1]);
      var m := msgs[|msgs| - 1];
      if m.messageType == HandoffMessage then ApplyHandoff(before, m) else before
  }

  /** The handoffs among `msgs` that name task `k`, in order. */
  function HandoffsFor(msgs: seq<AgentMessage>, k: string): seq<AgentMessage>
  {
    if msgs == [] then []
    else
      var m := msgs[|msgs| - 1];
      HandoffsFor(msgs[..|msgs| - 1], k)
        + (if m.messageType == HandoffMessage && HandoffTaskId(m) == Some(k) then [m] else [])
  }

  /** Per task, processing a batch of messages is: no task appears or disappears; a task
      keeps its assignment unless a handoff names it, in which case the last such handoff
      decides the agent; and its message log grows by exactly the handoffs naming it, in
      order. Nothing else about a task changes. */
  lemma {:induction false} ApplyMessagesPerTask(active: map<string, Task>, msgs: seq<AgentMessage>, k: string)
    ensures k in active ==>
      var hs := HandoffsFor(msgs, k);
      ApplyMessages(active, msgs)[k]
        == active[k].(assignedAgent := if hs == [] then active[k].assignedAgent else Some(hs[|hs| - 1].toAgent),
                      messages := active[k].messages + hs)
  {
    if msgs != [] {
      var init := msgs[..|msgs| - 1];
      ApplyMessagesPerTask(active, init, k);
      var m := msgs[|msgs| - 1];
      if k in active && m.messageType == HandoffMessage && HandoffTaskId(m) == Some(k) {
        var hs := HandoffsFor(init, k);
        assert active[k].messages + hs + [m] == active[k].messages + (hs + [m]);
      }
    }
  }

  /** A handoff that does not name an active task by a non-empty string id changes
      nothing at all. */
  lemma InvalidHandoffChangesNothing(active: map<string, Task>, m: AgentMessage)
    requires HandoffTaskId(m).None? || HandoffTaskId(m).value !in active
    ensures ApplyHandoff(active, m) == active
  {
  }
}
