/**
The reducer that turns a task's event stream into its snapshot, and what every event sequence keeps.
Both checkpoint creation and recovery replay through it.
*/
module TaskReducer {
  import opened Prelude
  import opened Events

  datatype TaskStatus = Created | Planning | InProgress | Pending | Paused | Completed | Failed

  datatype SubtaskStatus =
    | SubPending | SubAssigned | SubInProgress | SubCompleted | SubFailed | SubRecoverableFailed

  datatype SubtaskSnapshot = SubtaskSnapshot(
    subtaskId: string,
    status: SubtaskStatus,
    assignedWorker: Option<string>,
    resultSummary: Option<string>)

  datatype TaskSnapshot = TaskSnapshot(
    taskId: string,
    status: TaskStatus,
    subtasks: seq<SubtaskSnapshot>,
    lastEventOffset: nat)

  // ----- Parsing an updated status -----

  function LowerChar(c: char): char {
    if 'A' <= c <= 'Z' then (c as int + 32) as char else c
  }

  function Lower(s: string): string {
    seq(|s|, i requires 0 <= i < |s| => LowerChar(s[i]))
  }

  /** The parent status an update names, or `None` for advisory telemetry. */
  function UpdatedStatus(status: string): Option<TaskStatus> {
    var s := Lower(status);
    if s == "inprogress" || s == "in_progress" then Some(InProgress)
    else if s == "created" then Some(Created)
    else if s == "planning" then Some(Planning)
    else if s == "paused" then Some(Paused)
    else if s == "completed" then Some(Completed)
    else if s == "failed" then Some(Failed)
    else None
  }

  // ----- The reducer -----

  function DeriveTaskStatus(nodes: seq<SubtaskSnapshot>): TaskStatus {
    if nodes == [] then Created
    else if forall i :: 0 <= i < |nodes| ==> nodes[i].status == SubCompleted then Completed
    else if exists i :: 0 <= i < |nodes| && nodes[i].status == SubFailed then Failed
    else if exists i :: 0 <= i < |nodes| && (nodes[i].status == SubInProgress || nodes[i].status == SubAssigned)
    then InProgress
    else Pending
  }

  /** A parent in one of these states is not moved by child progress. */
  predicate Latched(status: TaskStatus) {
    status == Paused || status == Completed || status == Failed
  }

  function RefreshParentStatus(status: TaskStatus, nodes: seq<SubtaskSnapshot>): TaskStatus {
    if Latched(status) then status else DeriveTaskStatus(nodes)
  }

  /** Index of the first node with this id, or the length when there is none. */
  function IndexOf(nodes: seq<SubtaskSnapshot>, id: string): (k: nat)
    ensures k <= |nodes|
    ensures k < |nodes| ==> nodes[k].subtaskId == id
    ensures forall i :: 0 <= i < k ==> nodes[i].subtaskId != id
  {
    if nodes == [] || nodes[0].subtaskId == id then 0 else 1 + IndexOf(nodes[1..], id)
  }

  /** What an event does to the node it names. */
  function NodeStep(node: SubtaskSnapshot, e: AgentEvent): (r: SubtaskSnapshot)
    ensures r.subtaskId == node.subtaskId
  {
    match e
    case SubtaskRetried(_, _, _) => node.(status := SubPending, assignedWorker := None, resultSummary := None)
    case SubtaskAssigned(_, _, w) => node.(status := SubAssigned, assignedWorker := Some(w), resultSummary := None)
    case SubtaskStarted(_, _, _) => node.(status := SubInProgress)
    case SubtaskCompleted(_, _, summary, success) =>
      node.(status := if success then SubCompleted else SubFailed, resultSummary := Some(summary))
    case SubtaskFailed(_, _, error, recoverable) =>
      node.(status := if recoverable then SubRecoverableFailed else SubFailed, resultSummary := Some(error))
    case _ => node
  }

  /** The node an event is about, when it is one of the five node events. */
  function NodeOf(e: AgentEvent): Option<string> {
    match e
    case SubtaskRetried(_, id, _) => Some(id)
    case SubtaskAssigned(_, id, _) => Some(id)
    case SubtaskStarted(_, id, _) => Some(id)
    case SubtaskCompleted(_, id, _, _) => Some(id)
    case SubtaskFailed(_, id, _, _) => Some(id)
    case _ => None
  }

  function NewNode(id: string, worker: string): SubtaskSnapshot {
    SubtaskSnapshot(id, SubAssigned, Some(worker), None)
  }

  function ApplyToNodes(nodes: seq<SubtaskSnapshot>, e: AgentEvent): seq<SubtaskSnapshot> {
    match NodeOf(e)
    case None => nodes
    case Some(id) =>
      var k := IndexOf(nodes, id);
      if k < |nodes| then nodes[k := NodeStep(nodes[k], e)]
      else if e.SubtaskAssigned? then nodes + [NewNode(id, e.workerId)]
      else nodes
  }

  function ParentStep(status: TaskStatus, nodes: seq<SubtaskSnapshot>, e: AgentEvent): TaskStatus {
    match e
    case SubtaskRetried(_, _, _) => InProgress
    case TaskCreated(_) => Created
    case SubtaskAssigned(_, _, _) => RefreshParentStatus(status, nodes)
    case SubtaskCompleted(_, _, _, _) => RefreshParentStatus(status, nodes)
    case SubtaskFailed(_, _, _, _) => RefreshParentStatus(status, nodes)
    case TaskPaused(_) => Paused
    case TaskResumed(_) => InProgress
    case TaskCancelled(_) => Failed
    case TaskUpdated(_, s) => (match UpdatedStatus(s) case Some(t) => t case None => status)
    case TaskCompleted(_) => Completed
    case TaskFailed(_, _) => Failed
    case _ => status
  }

  function Apply(s: TaskSnapshot, e: AgentEvent): TaskSnapshot {
    var nodes := ApplyToNodes(s.subtasks, e);
    s.(subtasks := nodes, status := ParentStep(s.status, nodes, e))
  }

  /** Full replay of a stream, in order. */
  function Fold(s: TaskSnapshot, events: seq<RecordedEvent>): TaskSnapshot
    decreases events
  {
    if events == [] then s else Fold(Apply(s, events[0].event), events[1..])
  }

  function Initial(taskId: string, offset: nat): TaskSnapshot {
    TaskSnapshot(taskId, Created, [], offset)
  }

  // ----- The reducer as the program runs it: one snapshot, edited in place -----

  class SnapshotCell {
    var taskId: string
    var status: TaskStatus
    var subtasks: seq<SubtaskSnapshot>
    var lastEventOffset: nat

    function View(): TaskSnapshot
      reads this
    {
      TaskSnapshot(taskId, status, subtasks, lastEventOffset)
    }

    constructor (s: TaskSnapshot)
      ensures View() == s
    {
      taskId, status, subtasks, lastEventOffset := s.taskId, s.status, s.subtasks, s.lastEventOffset;
    }

    method Find(id: string) returns (k: nat)
      ensures k == IndexOf(subtasks, id)
    {
      k := 0;
      while k < |subtasks| && subtasks[k].subtaskId != id
        invariant 0 <= k <= |subtasks|
        invariant IndexOf(subtasks, id) == k + IndexOf(subtasks[k..], id)
      {
        assert subtasks[k..][1..] == subtasks[k + 1..];
        k := k + 1;
      }
    }

    method RefreshParent()
      modifies this`status
      ensures status == RefreshParentStatus(old(status), subtasks)
    {
      if !Latched(status) {
        status := DeriveTaskStatus(subtasks);
      }
    }

    /** Edits the node an event names, when the snapshot has it; an assignment of a new node pushes one. */
    method EditNode(id: string, e: AgentEvent)
      requires NodeOf(e) == Some(id)
      modifies this`subtasks
      ensures subtasks == ApplyToNodes(old(subtasks), e)
    {
      var k := Find(id);
      if k < |subtasks| {
        subtasks := subtasks[k := NodeStep(subtasks[k], e)];
      } else if e.SubtaskAssigned? {
        subtasks := subtasks + [NewNode(id, e.workerId)];
      }
    }

    method ApplyEvent(e: AgentEvent)
      modifies this`subtasks, this`status
      ensures View() == Apply(old(View()), e)
    {
      match e {
        case SubtaskRetried(_, id, _) => EditNode(id, e); status := InProgress;
        case TaskCreated(_) => status := Created;
        case SubtaskAssigned(_, id, _) => EditNode(id, e); RefreshParent();
        case SubtaskStarted(_, id, _) => EditNode(id, e);
        case SubtaskCompleted(_, id, _, _) => EditNode(id, e); RefreshParent();
        case SubtaskFailed(_, id, _, _) => EditNode(id, e); RefreshParent();
        case TaskPaused(_) => status := Paused;
        case TaskResumed(_) => status := InProgress;
        case TaskCancelled(_) => status := Failed;
        case TaskUpdated(_, s) =>
          var updated := UpdatedStatus(s);
          if updated.Some? { status := updated.value; }
        case TaskCompleted(_) => status := Completed;
        case TaskFailed(_, _) => status := Failed;
        case ToolInvoked(_, _) =>
        case ToolResult(_, _) =>
        case FileModified(_, _) =>
        case EditIntent(_) =>
        case CheckpointCreated(_, _, _) =>
        case SubtaskProgress(_, _, _) =>
      }
    }

    method Replay(events: seq<RecordedEvent>)
      modifies this
      ensures View() == Fold(old(View()), events)
    {
      ghost var start := View();
      for i := 0 to |events|
        invariant View() == Fold(start, events[..i])
      {
        assert events[..i + 1] == events[..i] + [events[i]];
        FoldPush(start, events[..i], events[i]);
        ApplyEvent(events[i].event);
      }
      assert events[..|events|] == events;
    }
  }

  // ----- Replay composes -----

  lemma {:induction false} FoldAppend(s: TaskSnapshot, a: seq<RecordedEvent>, b: seq<RecordedEvent>)
    ensures Fold(s, a + b) == Fold(Fold(s, a), b)
    decreases a
  {
    if a == [] {
      assert a + b == b;
    } else {
      assert (a + b)[1..] == a[1..] + b;
      FoldAppend(Apply(s, a[0].event), a[1..], b);
    }
  }

  lemma FoldPush(s: TaskSnapshot, a: seq<RecordedEvent>, e: RecordedEvent)
    ensures Fold(s, a + [e]) == Apply(Fold(s, a), e.event)
  {
    FoldAppend(s, a, [e]);
    assert Fold(Fold(s, a), [e]) == Fold(Apply(Fold(s, a), e.event), [e][1..]);
  }

  /** Replay neither reads nor writes the snapshot's identity and offset. */
  lemma {:induction false} FoldFrame(s: TaskSnapshot, events: seq<RecordedEvent>, offset: nat)
    ensures Fold(s.(lastEventOffset := offset), events) == Fold(s, events).(lastEventOffset := offset)
    ensures Fold(s, events).taskId == s.taskId && Fold(s, events).lastEventOffset == s.lastEventOffset
    decreases events
  {
    if events != [] {
      assert Apply(s.(lastEventOffset := offset), events[0].event)
          == Apply(s, events[0].event).(lastEventOffset := offset);
      FoldFrame(Apply(s, events[0].event), events[1..], offset);
    }
  }

  // ----- What every event sequence keeps -----

  ghost predicate UniqueIds(nodes: seq<SubtaskSnapshot>) {
    forall i, j :: 0 <= i < j < |nodes| ==> nodes[i].subtaskId != nodes[j].subtaskId
  }

  /** No event sequence ever lists one subtask twice. */
  lemma {:induction false} FoldKeepsIdsUnique(s: TaskSnapshot, events: seq<RecordedEvent>)
    requires UniqueIds(s.subtasks)
    ensures UniqueIds(Fold(s, events).subtasks)
    decreases events
  {
    if events != [] {
      FoldKeepsIdsUnique(Apply(s, events[0].event), events[1..]);
    }
  }

  /** Progress of children, and everything that is not a parent control or a retry. */
  predicate ChildEvent(e: AgentEvent) {
    || e.SubtaskAssigned? || e.SubtaskStarted? || e.SubtaskProgress? || e.SubtaskCompleted? || e.SubtaskFailed?
    || e.ToolInvoked? || e.ToolResult? || e.FileModified? || e.EditIntent? || e.CheckpointCreated?
  }

  /** No sequence of child events undoes a pause or a terminal parent status. */
  lemma {:induction false} ChildEventsKeepLatchedParent(s: TaskSnapshot, events: seq<RecordedEvent>)
    requires Latched(s.status)
    requires forall i :: 0 <= i < |events| ==> ChildEvent(events[i].event)
    ensures Fold(s, events).status == s.status
    decreases events
  {
    if events != [] {
      ChildEventsKeepLatchedParent(Apply(s, events[0].event), events[1..]);
    }
  }

  /** Applying an event twice in a row equals applying it once. */
  lemma ApplyTwice(s: TaskSnapshot, e: AgentEvent)
    ensures Apply(Apply(s, e), e) == Apply(s, e)
  {
    ApplyToNodesTwice(s.subtasks, e);
  }

  lemma ApplyToNodesTwice(nodes: seq<SubtaskSnapshot>, e: AgentEvent)
    ensures ApplyToNodes(ApplyToNodes(nodes, e), e) == ApplyToNodes(nodes, e)
  {
    var once := ApplyToNodes(nodes, e);
    if NodeOf(e).Some? {
      var id := NodeOf(e).value;
      var k, k' := IndexOf(nodes, id), IndexOf(once, id);
      if k < |nodes| || e.SubtaskAssigned? {
        assert once[k].subtaskId == id;
        assert k' == k;
        assert NodeStep(once[k], e) == once[k];
        assert once[k := once[k]] == once;
      }
    }
  }

  function Lookup(nodes: seq<SubtaskSnapshot>, id: string): Option<SubtaskSnapshot> {
    var k := IndexOf(nodes, id);
    if k < |nodes| then Some(nodes[k]) else None
  }

  function HistoryStep(node: Option<SubtaskSnapshot>, id: string, e: AgentEvent): Option<SubtaskSnapshot> {
    if NodeOf(e) != Some(id) then node
    else if node.Some? then Some(NodeStep(node.value, e))
    else if e.SubtaskAssigned? then Some(NewNode(id, e.workerId))
    else None
  }

  /** One subtask's own history: only the events that name it, against only its own state. */
  function NodeHistory(node: Option<SubtaskSnapshot>, id: string, events: seq<RecordedEvent>): Option<SubtaskSnapshot>
    decreases events
  {
    if events == [] then node else NodeHistory(HistoryStep(node, id, events[0].event), id, events[1..])
  }

  /**
  Every subtask in a replayed snapshot is the outcome of its own events alone: subtasks never leak into each other.
  */
  lemma {:induction false} SubtasksEvolveIndependently(s: TaskSnapshot, id: string, events: seq<RecordedEvent>)
    ensures Lookup(Fold(s, events).subtasks, id) == NodeHistory(Lookup(s.subtasks, id), id, events)
    decreases events
  {
    if events != [] {
      LookupAfterApply(s.subtasks, id, events[0].event);
      SubtasksEvolveIndependently(Apply(s, events[0].event), id, events[1..]);
    }
  }

  lemma LookupAfterApply(nodes: seq<SubtaskSnapshot>, id: string, e: AgentEvent)
    ensures Lookup(ApplyToNodes(nodes, e), id) == HistoryStep(Lookup(nodes, id), id, e)
  {
    var after := ApplyToNodes(nodes, e);
    var k, k' := IndexOf(nodes, id), IndexOf(after, id);
    if k < |nodes| {
      assert after[k].subtaskId == id;
      assert k' == k;
    } else if NodeOf(e) == Some(id) && e.SubtaskAssigned? {
      assert after[k].subtaskId == id;
      assert k' == k;
    }
  }
}
