/**
What a replayed snapshot says: the parent status in terms of the subtasks it lists and the controls it received, and
each subtask in terms of the last event that names it. Nothing here refers to how the reducer computes it.
*/
module ReplayMeaning {
  import opened Prelude
  import opened Events
  import opened TaskReducer

  // ----- The parent against its subtasks -----

  function Statuses(nodes: seq<SubtaskSnapshot>): set<SubtaskStatus> {
    set i | 0 <= i < |nodes| :: nodes[i].status
  }

  /** The one status that a set of subtask statuses stands for. */
  predicate Fits(status: TaskStatus, among: set<SubtaskStatus>) {
    && (status == Created <==> among == {})
    && (status == Completed <==> among == {SubCompleted})
    && (status == Failed <==> SubFailed in among)
    && (status == InProgress <==> SubFailed !in among && (SubAssigned in among || SubInProgress in among))
    && (status == Pending <==>
          among != {} && among != {SubCompleted} && among !! {SubFailed, SubAssigned, SubInProgress})
    && status != Paused && status != Planning
  }

  lemma DerivedFits(nodes: seq<SubtaskSnapshot>)
    ensures Fits(DeriveTaskStatus(nodes), Statuses(nodes))
  {
    var among := Statuses(nodes);
    if nodes != [] { assert nodes[0].status in among; }
    if among == {SubCompleted} {
      forall i | 0 <= i < |nodes| ensures nodes[i].status == SubCompleted { assert nodes[i].status in among; }
    }
    assert nodes != [] && (forall i :: 0 <= i < |nodes| ==> nodes[i].status == SubCompleted) ==> among == {SubCompleted};
  }

  /** The events after which an unlatched parent is what its subtasks say. */
  predicate Refreshing(e: AgentEvent) {
    e.SubtaskAssigned? || e.SubtaskCompleted? || e.SubtaskFailed?
  }

  /** One refreshing event: a paused or ended parent stays, any other is what the subtasks now say. */
  lemma RefreshedStatus(s: TaskSnapshot, e: AgentEvent)
    requires Refreshing(e)
    ensures s.status in {Paused, Completed, Failed} ==> Apply(s, e).status == s.status
    ensures s.status !in {Paused, Completed, Failed} ==> Fits(Apply(s, e).status, Statuses(Apply(s, e).subtasks))
  {
    DerivedFits(Apply(s, e).subtasks);
  }

  // ----- The controls -----

  /** `word`, with any of its letters in upper case. */
  predicate Spelled(text: string, word: string) {
    && |text| == |word|
    && forall i :: 0 <= i < |text| ==>
         text[i] == word[i] || ('A' <= text[i] <= 'Z' && text[i] as int + 32 == word[i] as int)
  }

  lemma SpelledIff(text: string, word: string)
    requires forall i :: 0 <= i < |word| ==> !('A' <= word[i] <= 'Z')
    ensures Lower(text) == word <==> Spelled(text, word)
  {
    var lower := Lower(text);
    if lower == word {
      forall i | 0 <= i < |text|
        ensures text[i] == word[i] || ('A' <= text[i] <= 'Z' && text[i] as int + 32 == word[i] as int)
      {
        assert lower[i] == LowerChar(text[i]);
      }
    }
    if Spelled(text, word) {
      forall i | 0 <= i < |text| ensures lower[i] == word[i] {}
    }
  }

  /** The statuses that an update can spell. */
  predicate Says(text: string, status: TaskStatus) {
    match status
    case Created => Spelled(text, "created")
    case Planning => Spelled(text, "planning")
    case InProgress => Spelled(text, "in_progress") || Spelled(text, "inprogress")
    case Pending => false
    case Paused => Spelled(text, "paused")
    case Completed => Spelled(text, "completed")
    case Failed => Spelled(text, "failed")
  }

  /** An update names a status exactly if it spells it, in any case. */
  lemma UpdateSaysIff(text: string, status: TaskStatus)
    ensures UpdatedStatus(text) == Some(status) <==> Says(text, status)
  {
    SpelledIff(text, "created");
    SpelledIff(text, "planning");
    SpelledIff(text, "in_progress");
    SpelledIff(text, "inprogress");
    SpelledIff(text, "paused");
    SpelledIff(text, "completed");
    SpelledIff(text, "failed");
  }

  /** The event sets the parent to this status, whatever the snapshot. */
  predicate Sets(e: AgentEvent, status: TaskStatus) {
    match e
    case TaskCreated(_) => status == Created
    case TaskPaused(_) => status == Paused
    case TaskResumed(_) => status == InProgress
    case SubtaskRetried(_, _, _) => status == InProgress
    case TaskCompleted(_) => status == Completed
    case TaskFailed(_, _) => status == Failed
    case TaskCancelled(_) => status == Failed
    case TaskUpdated(_, text) => Says(text, status)
    case _ => false
  }

  ghost predicate SetsSomething(e: AgentEvent) {
    exists status :: Sets(e, status)
  }

  lemma ControlSets(s: TaskSnapshot, e: AgentEvent, status: TaskStatus)
    requires Sets(e, status)
    ensures Apply(s, e).status == status
  {
    if e.TaskUpdated? { UpdateSaysIff(e.newStatus, status); }
  }

  /** Any other event leaves the parent alone. */
  lemma OthersKeepStatus(s: TaskSnapshot, e: AgentEvent)
    requires !Refreshing(e) && !SetsSomething(e)
    ensures Apply(s, e).status == s.status
  {
    assert !Sets(e, Created) && !Sets(e, Paused) && !Sets(e, InProgress) && !Sets(e, Completed) && !Sets(e, Failed);
    if e.TaskUpdated? {
      forall status ensures UpdatedStatus(e.newStatus) == Some(status) <==> Sets(e, status) {
        UpdateSaysIff(e.newStatus, status);
      }
    }
  }

  // ----- The parent after any replay -----

  lemma {:induction false} QuietKeepsStatus(s: TaskSnapshot, events: seq<RecordedEvent>)
    requires forall i :: 0 <= i < |events| ==> !Refreshing(events[i].event) && !SetsSomething(events[i].event)
    ensures Fold(s, events).status == s.status
    decreases events
  {
    if events != [] {
      OthersKeepStatus(s, events[0].event);
      QuietKeepsStatus(Apply(s, events[0].event), events[1..]);
    }
  }

  lemma FoldAt(s: TaskSnapshot, events: seq<RecordedEvent>, k: nat)
    requires k < |events|
    ensures Fold(s, events[..k + 1]) == Apply(Fold(s, events[..k]), events[k].event)
    ensures Fold(s, events) == Fold(Fold(s, events[..k + 1]), events[k + 1..])
  {
    assert events[..k + 1] == events[..k] + [events[k]];
    FoldPush(s, events[..k], events[k]);
    assert events == events[..k + 1] + events[k + 1..];
    FoldAppend(s, events[..k + 1], events[k + 1..]);
  }

  /**
  The parent after any replay is decided by the last event that refreshes or sets it: set, it has that status;
  refreshed, it stays paused or ended if it was, and otherwise fits the subtasks as that event left them.
  */
  lemma LastMoveDecides(s: TaskSnapshot, events: seq<RecordedEvent>, k: nat)
    requires k < |events|
    requires forall i :: k < i < |events| ==> !Refreshing(events[i].event) && !SetsSomething(events[i].event)
    ensures forall status :: Sets(events[k].event, status) ==> Fold(s, events).status == status
    ensures
      var was := Fold(s, events[..k]).status;
      Refreshing(events[k].event) ==>
        if was in {Paused, Completed, Failed} then Fold(s, events).status == was
        else Fits(Fold(s, events).status, Statuses(Fold(s, events[..k + 1]).subtasks))
  {
    FoldAt(s, events, k);
    var before := Fold(s, events[..k]);
    QuietKeepsStatus(Fold(s, events[..k + 1]), events[k + 1..]);
    if Refreshing(events[k].event) { RefreshedStatus(before, events[k].event); }
    forall status | Sets(events[k].event, status) ensures Fold(s, events).status == status {
      ControlSets(before, events[k].event, status);
    }
  }

  /** A pause, a completion, a failure or a cancellation holds until the next control, whatever the subtasks do. */
  lemma {:induction false} EndHolds(s: TaskSnapshot, events: seq<RecordedEvent>)
    requires s.status in {Paused, Completed, Failed}
    requires forall i :: 0 <= i < |events| ==> !SetsSomething(events[i].event)
    ensures Fold(s, events).status == s.status
    decreases events
  {
    if events != [] {
      var e := events[0].event;
      if Refreshing(e) { RefreshedStatus(s, e); } else { OthersKeepStatus(s, e); }
      EndHolds(Apply(s, e), events[1..]);
    }
  }

  // ----- Each subtask -----

  /** The events that write the subtask they name. */
  predicate Names(e: AgentEvent, id: string) {
    && (e.SubtaskAssigned? || e.SubtaskStarted? || e.SubtaskCompleted? || e.SubtaskFailed? || e.SubtaskRetried?)
    && e.subtaskId == id
  }

  ghost predicate AssignedIn(events: seq<RecordedEvent>, id: string) {
    exists i :: 0 <= i < |events| && events[i].event.SubtaskAssigned? && events[i].event.subtaskId == id
  }

  lemma StepKnows(nodes: seq<SubtaskSnapshot>, id: string, e: AgentEvent)
    ensures Lookup(ApplyToNodes(nodes, e), id).Some?
        <==> Lookup(nodes, id).Some? || (e.SubtaskAssigned? && e.subtaskId == id)
    ensures !Names(e, id) ==> Lookup(ApplyToNodes(nodes, e), id) == Lookup(nodes, id)
  {
    LookupAfterApply(nodes, id, e);
  }

  /**
  A subtask is listed exactly if it was before or was assigned since; no other event makes one up, none removes one.
  */
  lemma {:induction false} KnownIffAssigned(s: TaskSnapshot, events: seq<RecordedEvent>, id: string)
    ensures Lookup(Fold(s, events).subtasks, id).Some? <==> Lookup(s.subtasks, id).Some? || AssignedIn(events, id)
    decreases events
  {
    if events != [] {
      StepKnows(s.subtasks, id, events[0].event);
      KnownIffAssigned(Apply(s, events[0].event), events[1..], id);
      if AssignedIn(events[1..], id) {
        var i :| 0 <= i < |events[1..]| && events[1..][i].event.SubtaskAssigned? && events[1..][i].event.subtaskId == id;
        assert events[i + 1].event.SubtaskAssigned?;
      }
      if AssignedIn(events, id) && !(events[0].event.SubtaskAssigned? && events[0].event.subtaskId == id) {
        var i :| 0 <= i < |events| && events[i].event.SubtaskAssigned? && events[i].event.subtaskId == id;
        assert events[1..][i - 1].event.SubtaskAssigned?;
      }
    }
  }

  /** What the last event that names a listed subtask leaves of it; `was` is the subtask before that event. */
  predicate LeftAs(e: AgentEvent, was: Option<SubtaskSnapshot>, node: SubtaskSnapshot) {
    match e
    case SubtaskAssigned(_, id, worker) => node == SubtaskSnapshot(id, SubAssigned, Some(worker), None)
    case SubtaskRetried(_, id, _) => node == SubtaskSnapshot(id, SubPending, None, None)
    case SubtaskStarted(_, id, _) =>
      was.Some? && node == SubtaskSnapshot(id, SubInProgress, was.value.assignedWorker, was.value.resultSummary)
    case SubtaskCompleted(_, id, summary, success) =>
      && was.Some?
      && node == SubtaskSnapshot(id, if success then SubCompleted else SubFailed, was.value.assignedWorker, Some(summary))
    case SubtaskFailed(_, id, error, recoverable) =>
      && was.Some?
      && node == SubtaskSnapshot(id, if recoverable then SubRecoverableFailed else SubFailed,
                                 was.value.assignedWorker, Some(error))
    case _ => false
  }

  lemma NamedIsLeftAs(nodes: seq<SubtaskSnapshot>, id: string, e: AgentEvent)
    requires Names(e, id) && Lookup(ApplyToNodes(nodes, e), id).Some?
    ensures LeftAs(e, Lookup(nodes, id), Lookup(ApplyToNodes(nodes, e), id).value)
  {
    LookupAfterApply(nodes, id, e);
  }

  lemma {:induction false} UnnamedStays(s: TaskSnapshot, events: seq<RecordedEvent>, id: string)
    requires forall i :: 0 <= i < |events| ==> !Names(events[i].event, id)
    ensures Lookup(Fold(s, events).subtasks, id) == Lookup(s.subtasks, id)
    decreases events
  {
    if events != [] {
      StepKnows(s.subtasks, id, events[0].event);
      UnnamedStays(Apply(s, events[0].event), events[1..], id);
    }
  }

  /**
  A listed subtask is what the last event that names it left, with the worker and summary that event does not write.
  */
  lemma LastNamingDecides(s: TaskSnapshot, events: seq<RecordedEvent>, k: nat, id: string)
    requires k < |events| && Names(events[k].event, id)
    requires forall i :: k < i < |events| ==> !Names(events[i].event, id)
    requires Lookup(Fold(s, events).subtasks, id).Some?
    ensures LeftAs(events[k].event, Lookup(Fold(s, events[..k]).subtasks, id), Lookup(Fold(s, events).subtasks, id).value)
  {
    FoldAt(s, events, k);
    UnnamedStays(Fold(s, events[..k + 1]), events[k + 1..], id);
    NamedIsLeftAs(Fold(s, events[..k]).subtasks, id, events[k].event);
  }
}
