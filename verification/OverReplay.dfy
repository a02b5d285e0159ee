/**
Replaying events that a snapshot already contains. Each subtask comes out as it was, whatever the events; the parent
status does so exactly when the second pass settles on the status it already has.
*/
module OverReplay {
  import opened Prelude
  import opened Events
  import opened TaskReducer

  // ----- The nodes alone -----

  function NodesAfter(nodes: seq<SubtaskSnapshot>, events: seq<RecordedEvent>): seq<SubtaskSnapshot>
    decreases events
  {
    if events == [] then nodes else NodesAfter(ApplyToNodes(nodes, events[0].event), events[1..])
  }

  lemma {:induction false} FoldNodes(s: TaskSnapshot, events: seq<RecordedEvent>)
    ensures Fold(s, events).subtasks == NodesAfter(s.subtasks, events)
    decreases events
  {
    if events != [] { FoldNodes(Apply(s, events[0].event), events[1..]); }
  }

  lemma {:induction false} NodesAppend(nodes: seq<SubtaskSnapshot>, a: seq<RecordedEvent>, b: seq<RecordedEvent>)
    ensures NodesAfter(nodes, a + b) == NodesAfter(NodesAfter(nodes, a), b)
    decreases a
  {
    if a == [] {
      assert a + b == b;
    } else {
      assert (a + b)[1..] == a[1..] + b;
      NodesAppend(ApplyToNodes(nodes, a[0].event), a[1..], b);
    }
  }

  lemma NodesLookup(nodes: seq<SubtaskSnapshot>, id: string, events: seq<RecordedEvent>)
    ensures Lookup(NodesAfter(nodes, events), id) == NodeHistory(Lookup(nodes, id), id, events)
  {
    var s := TaskSnapshot("", Created, nodes, 0);
    FoldNodes(s, events);
    SubtasksEvolveIndependently(s, id, events);
  }

  // ----- The last writer of each field wins -----

  /** The fields of a node that events write, each with the last value written. */
  datatype Written = Written(
    status: Option<SubtaskStatus>,
    worker: Option<Option<string>>,
    summary: Option<Option<string>>)

  function Writes(e: AgentEvent): Written {
    match e
    case SubtaskRetried(_, _, _) => Written(Some(SubPending), Some(None), Some(None))
    case SubtaskAssigned(_, _, w) => Written(Some(SubAssigned), Some(Some(w)), Some(None))
    case SubtaskStarted(_, _, _) => Written(Some(SubInProgress), None, None)
    case SubtaskCompleted(_, _, summary, success) =>
      Written(Some(if success then SubCompleted else SubFailed), None, Some(Some(summary)))
    case SubtaskFailed(_, _, error, recoverable) =>
      Written(Some(if recoverable then SubRecoverableFailed else SubFailed), None, Some(Some(error)))
    case _ => Written(None, None, None)
  }

  function Or<T>(a: Option<T>, b: Option<T>): Option<T> {
    if a.Some? then a else b
  }

  function LastWritten(id: string, events: seq<RecordedEvent>): Written
    decreases events
  {
    if events == [] then Written(None, None, None)
    else
      var later := LastWritten(id, events[1..]);
      if NodeOf(events[0].event) != Some(id) then later
      else
        var w := Writes(events[0].event);
        Written(Or(later.status, w.status), Or(later.worker, w.worker), Or(later.summary, w.summary))
  }

  function Overwrite(node: SubtaskSnapshot, w: Written): SubtaskSnapshot {
    SubtaskSnapshot(
      node.subtaskId,
      if w.status.Some? then w.status.value else node.status,
      if w.worker.Some? then w.worker.value else node.assignedWorker,
      if w.summary.Some? then w.summary.value else node.resultSummary)
  }

  /** A known subtask ends with what was written last, field by field. */
  lemma {:induction false} HistoryIsLastWritten(node: SubtaskSnapshot, id: string, events: seq<RecordedEvent>)
    ensures NodeHistory(Some(node), id, events) == Some(Overwrite(node, LastWritten(id, events)))
    decreases events
  {
    if events != [] {
      var e := events[0].event;
      HistoryIsLastWritten(if NodeOf(e) == Some(id) then NodeStep(node, e) else node, id, events[1..]);
    }
  }

  /** A subtask that an assignment created holds nothing but what was written. */
  lemma {:induction false} CreatedIsWritten(node: SubtaskSnapshot, id: string, events: seq<RecordedEvent>)
    requires node.subtaskId == id
    requires NodeHistory(None, id, events).Some?
    ensures var w := LastWritten(id, events); w.status.Some? && w.worker.Some? && w.summary.Some?
    ensures NodeHistory(None, id, events) == Some(Overwrite(node, LastWritten(id, events)))
    decreases events
  {
    var e := events[0].event;
    if NodeOf(e) == Some(id) && e.SubtaskAssigned? {
      HistoryIsLastWritten(NewNode(id, e.workerId), id, events[1..]);
    } else {
      CreatedIsWritten(node, id, events[1..]);
    }
  }

  lemma HistoryTwice(node: Option<SubtaskSnapshot>, id: string, events: seq<RecordedEvent>)
    requires node.Some? ==> node.value.subtaskId == id
    ensures NodeHistory(NodeHistory(node, id, events), id, events) == NodeHistory(node, id, events)
  {
    var once := NodeHistory(node, id, events);
    if node.Some? {
      HistoryIsLastWritten(node.value, id, events);
      HistoryIsLastWritten(once.value, id, events);
    } else if once.Some? {
      CreatedIsWritten(NewNode(id, ""), id, events);
      HistoryIsLastWritten(once.value, id, events);
    }
  }

  /** After an assignment in the events, nothing of what the subtask was before is left. */
  lemma {:induction false} AssignedForgets(a: Option<SubtaskSnapshot>, b: Option<SubtaskSnapshot>, id: string, events: seq<RecordedEvent>)
    requires (a.Some? ==> a.value.subtaskId == id) && (b.Some? ==> b.value.subtaskId == id)
    requires Assigns(events, id)
    ensures NodeHistory(a, id, events) == NodeHistory(b, id, events)
    decreases events
  {
    var e := events[0].event;
    if !(e.SubtaskAssigned? && e.subtaskId == id) {
      assert Assigns(events[1..], id);
      AssignedForgets(HistoryStep(a, id, e), HistoryStep(b, id, e), id, events[1..]);
    }
  }

  ghost predicate Assigns(events: seq<RecordedEvent>, id: string) {
    exists i :: 0 <= i < |events| && events[i].event.SubtaskAssigned? && events[i].event.subtaskId == id
  }

  // ----- A second replay leaves every node as it is -----

  lemma LookupNamesIt(nodes: seq<SubtaskSnapshot>, id: string)
    ensures Lookup(nodes, id).Some? ==> Lookup(nodes, id).value.subtaskId == id
  {
  }

  /** The ids stay in place, a node is added only for a new id, and only the first node of an id is ever written. */
  ghost predicate KeepsPlaces(was: seq<SubtaskSnapshot>, now: seq<SubtaskSnapshot>) {
    && |now| >= |was|
    && (forall i :: 0 <= i < |was| ==> now[i].subtaskId == was[i].subtaskId)
    && (forall i :: 0 <= i < |was| && IndexOf(was, was[i].subtaskId) < i ==> now[i] == was[i])
    && (forall i :: |was| <= i < |now| ==> IndexOf(was, now[i].subtaskId) == |was|)
  }

  lemma IndexStays(was: seq<SubtaskSnapshot>, now: seq<SubtaskSnapshot>, id: string)
    requires |now| >= |was| && forall i :: 0 <= i < |was| ==> now[i].subtaskId == was[i].subtaskId
    ensures IndexOf(was, id) < |was| ==> IndexOf(now, id) == IndexOf(was, id)
    ensures IndexOf(now, id) < |was| ==> IndexOf(was, id) == IndexOf(now, id)
  {
    var k, n := IndexOf(was, id), IndexOf(now, id);
    if k < |was| { assert now[k].subtaskId == id; }
    if n < |was| { assert was[n].subtaskId == id; }
  }

  lemma {:induction false} ReplayKeepsPlaces(nodes: seq<SubtaskSnapshot>, events: seq<RecordedEvent>)
    ensures KeepsPlaces(nodes, NodesAfter(nodes, events))
    decreases events
  {
    if events != [] {
      var mid := ApplyToNodes(nodes, events[0].event);
      assert KeepsPlaces(nodes, mid);
      ReplayKeepsPlaces(mid, events[1..]);
      PlacesCompose(nodes, mid, NodesAfter(nodes, events));
    }
  }

  lemma PlacesCompose(a: seq<SubtaskSnapshot>, b: seq<SubtaskSnapshot>, c: seq<SubtaskSnapshot>)
    requires KeepsPlaces(a, b) && KeepsPlaces(b, c)
    ensures KeepsPlaces(a, c)
  {
    forall i | 0 <= i < |a| && IndexOf(a, a[i].subtaskId) < i ensures c[i] == a[i] {
      IndexStays(a, b, a[i].subtaskId);
    }
    forall i | |a| <= i < |c| ensures IndexOf(a, c[i].subtaskId) == |a| {
      IndexStays(a, b, c[i].subtaskId);
      if i < |b| { assert b[i].subtaskId == c[i].subtaskId; }
    }
  }

  /** Events after which every subtask looks up as before leave the list itself as it was. */
  lemma SameLookupsSameNodes(nodes: seq<SubtaskSnapshot>, events: seq<RecordedEvent>)
    requires forall id :: Lookup(NodesAfter(nodes, events), id) == Lookup(nodes, id)
    ensures NodesAfter(nodes, events) == nodes
  {
    ReplayKeepsPlaces(nodes, events);
    SamePlaces(nodes, NodesAfter(nodes, events));
  }

  lemma SamePlaces(was: seq<SubtaskSnapshot>, now: seq<SubtaskSnapshot>)
    requires KeepsPlaces(was, now) && forall id :: Lookup(now, id) == Lookup(was, id)
    ensures now == was
  {
    if now != [] { SamePlace(was, now, |now| - 1); }
    forall i | 0 <= i < |was| ensures now[i] == was[i] {
      SamePlace(was, now, i);
    }
  }

  lemma SamePlace(was: seq<SubtaskSnapshot>, now: seq<SubtaskSnapshot>, i: nat)
    requires KeepsPlaces(was, now) && i < |now| && Lookup(now, now[i].subtaskId) == Lookup(was, now[i].subtaskId)
    ensures i < |was| && now[i] == was[i]
  {
    var id := now[i].subtaskId;
    assert IndexOf(now, id) <= i;
    IndexStays(was, now, id);
  }

  /** Replaying any events a second time leaves every subtask, and their order, as the first replay left them. */
  lemma SecondReplayKeepsNodes(nodes: seq<SubtaskSnapshot>, events: seq<RecordedEvent>)
    ensures NodesAfter(NodesAfter(nodes, events), events) == NodesAfter(nodes, events)
  {
    var once := NodesAfter(nodes, events);
    forall id ensures Lookup(NodesAfter(once, events), id) == Lookup(once, id) {
      NodesLookup(nodes, id, events);
      NodesLookup(once, id, events);
      LookupNamesIt(nodes, id);
      HistoryTwice(Lookup(nodes, id), id, events);
    }
    SameLookupsSameNodes(once, events);
  }

  // ----- The parent status in closed form -----

  /** The status an event gives the parent outright. */
  function Control(e: AgentEvent): Option<TaskStatus> {
    match e
    case SubtaskRetried(_, _, _) => Some(InProgress)
    case TaskCreated(_) => Some(Created)
    case TaskPaused(_) => Some(Paused)
    case TaskResumed(_) => Some(InProgress)
    case TaskCancelled(_) => Some(Failed)
    case TaskUpdated(_, s) => UpdatedStatus(s)
    case TaskCompleted(_) => Some(Completed)
    case TaskFailed(_, _) => Some(Failed)
    case _ => None
  }

  predicate Refreshes(e: AgentEvent) {
    e.SubtaskAssigned? || e.SubtaskCompleted? || e.SubtaskFailed?
  }

  /** How many events there are up to and including the last parent control. */
  function LastControl(events: seq<RecordedEvent>): (c: nat)
    ensures c <= |events| && (c > 0 ==> Control(events[c - 1].event).Some?)
    ensures forall i :: c <= i < |events| ==> Control(events[i].event).None?
  {
    if events == [] then 0
    else if Control(events[|events| - 1].event).Some? then |events|
    else LastControl(events[..|events| - 1])
  }

  /** What the subtasks say of the parent at each event that refreshes it. */
  function Derived(nodes: seq<SubtaskSnapshot>, events: seq<RecordedEvent>): seq<TaskStatus>
    decreases events
  {
    if events == [] then []
    else
      var after := ApplyToNodes(nodes, events[0].event);
      (if Refreshes(events[0].event) then [DeriveTaskStatus(after)] else []) + Derived(after, events[1..])
  }

  /** The first terminal status among what was derived, or the last of it. */
  function Verdict(derived: seq<TaskStatus>): TaskStatus
    requires derived != []
  {
    if Latched(derived[0]) || |derived| == 1 then derived[0] else Verdict(derived[1..])
  }

  function Settle(start: TaskStatus, derived: seq<TaskStatus>): TaskStatus {
    if Latched(start) || derived == [] then start else Verdict(derived)
  }

  lemma SettleStep(start: TaskStatus, first: TaskStatus, later: seq<TaskStatus>)
    ensures Settle(start, [first] + later) == Settle(if Latched(start) then start else first, later)
  {
    assert ([first] + later)[1..] == later;
  }

  lemma ProgressStep(status: TaskStatus, nodes: seq<SubtaskSnapshot>, e: AgentEvent)
    requires Control(e).None?
    ensures ParentStep(status, nodes, e) == if Refreshes(e) then RefreshParentStatus(status, nodes) else status
  {
  }

  lemma {:induction false} ProgressSettles(s: TaskSnapshot, events: seq<RecordedEvent>)
    requires forall i :: 0 <= i < |events| ==> Control(events[i].event).None?
    ensures Fold(s, events).status == Settle(s.status, Derived(s.subtasks, events))
    decreases events
  {
    if events != [] {
      var e := events[0].event;
      assert Control(e).None?;
      var next := Apply(s, e);
      ProgressSettles(next, events[1..]);
      ProgressStep(s.status, next.subtasks, e);
      var later := Derived(next.subtasks, events[1..]);
      if Refreshes(e) {
        assert Derived(s.subtasks, events) == [DeriveTaskStatus(next.subtasks)] + later;
        SettleStep(s.status, DeriveTaskStatus(next.subtasks), later);
      } else {
        assert Derived(s.subtasks, events) == later;
      }
    }
  }

  /** What the last parent control left, or the given status when there is none. */
  function Base(status: TaskStatus, events: seq<RecordedEvent>): TaskStatus {
    var c := LastControl(events);
    if c == 0 then status else Control(events[c - 1].event).value
  }

  /** What the subtasks derive after the last parent control. */
  function DerivedSince(nodes: seq<SubtaskSnapshot>, events: seq<RecordedEvent>): seq<TaskStatus> {
    var c := LastControl(events);
    Derived(NodesAfter(nodes, events[..c]), events[c..])
  }

  /**
  The parent status after any replay: what the last control set if that latches or nothing refreshes it, otherwise the
  first terminal status the subtasks derive after it, or the last status they derive.
  */
  lemma ReplayedStatus(s: TaskSnapshot, events: seq<RecordedEvent>)
    ensures Fold(s, events).status == Settle(Base(s.status, events), DerivedSince(s.subtasks, events))
  {
    var c := LastControl(events);
    var head, tail := events[..c], events[c..];
    assert events == head + tail;
    FoldAppend(s, head, tail);
    FoldNodes(s, head);
    ControlSets(s, events, c);
    ProgressSettles(Fold(s, head), tail);
  }

  lemma ControlSets(s: TaskSnapshot, events: seq<RecordedEvent>, c: nat)
    requires c == LastControl(events)
    ensures Fold(s, events[..c]).status == Base(s.status, events)
  {
    if c > 0 {
      assert events[..c] == events[..c - 1] + [events[c - 1]];
      FoldPush(s, events[..c - 1], events[c - 1]);
      ControlStep(Fold(s, events[..c - 1]), events[c - 1].event);
    }
  }

  lemma ControlStep(s: TaskSnapshot, e: AgentEvent)
    requires Control(e).Some?
    ensures Apply(s, e).status == Control(e).value
  {
  }

  lemma {:induction false} DerivedCount(a: seq<SubtaskSnapshot>, b: seq<SubtaskSnapshot>, events: seq<RecordedEvent>)
    ensures |Derived(a, events)| == |Derived(b, events)|
    decreases events
  {
    if events != [] {
      DerivedCount(ApplyToNodes(a, events[0].event), ApplyToNodes(b, events[0].event), events[1..]);
    }
  }

  // ----- When a second replay is harmless -----

  /**
  What a holder of the snapshot can check before replaying: the events latch the parent or never refresh it after
  their last control, or what its subtasks derive along the way settles on the status it has.
  */
  predicate SafeToReplay(once: TaskSnapshot, events: seq<RecordedEvent>) {
    var derived := DerivedSince(once.subtasks, events);
    Latched(Base(once.status, events)) || derived == [] || Verdict(derived) == once.status
  }

  /** A second replay of any events gives the same snapshot if and only if that check holds. */
  lemma SecondReplayHarmlessIff(s: TaskSnapshot, events: seq<RecordedEvent>)
    ensures Fold(Fold(s, events), events) == Fold(s, events) <==> SafeToReplay(Fold(s, events), events)
  {
    var once := Fold(s, events);
    var twice := Fold(once, events);
    FoldNodes(s, events);
    FoldNodes(once, events);
    SecondReplayKeepsNodes(s.subtasks, events);
    FoldFrame(once, events, once.lastEventOffset);
    ReplayedStatus(s, events);
    ReplayedStatus(once, events);
    var c := LastControl(events);
    DerivedCount(NodesAfter(s.subtasks, events[..c]), NodesAfter(once.subtasks, events[..c]), events[c..]);
    assert twice == once <==> twice.status == once.status;
  }

  /** Events in which nothing refreshes the parent after its last control can be replayed again. */
  lemma {:induction false} NothingDerived(nodes: seq<SubtaskSnapshot>, events: seq<RecordedEvent>)
    requires forall i :: 0 <= i < |events| ==> !Refreshes(events[i].event)
    ensures Derived(nodes, events) == []
    decreases events
  {
    if events != [] { NothingDerived(ApplyToNodes(nodes, events[0].event), events[1..]); }
  }

  /**
  Two cases a sender of events can see without any snapshot: nothing refreshes the parent after its last control, or
  every subtask named after that control was assigned before it. Then a second replay is always harmless.
  */
  lemma ReplayableAnywhere(s: TaskSnapshot, events: seq<RecordedEvent>)
    requires var c := LastControl(events);
      || (forall i :: c <= i < |events| ==> !Refreshes(events[i].event))
      || (forall i :: c <= i < |events| && NodeOf(events[i].event).Some? ==> Assigns(events[..c], NodeOf(events[i].event).value))
    ensures Fold(Fold(s, events), events) == Fold(s, events)
  {
    var c := LastControl(events);
    var once := Fold(s, events);
    SecondReplayHarmlessIff(s, events);
    if forall i :: c <= i < |events| ==> !Refreshes(events[i].event) {
      NothingDerived(NodesAfter(once.subtasks, events[..c]), events[c..]);
    } else {
      FoldNodes(s, events);
      HeadRestores(s.subtasks, events, c);
      ReplayedStatus(s, events);
    }
  }

  /** If the head assigns every subtask the tail names, replaying the head undoes the tail. */
  lemma HeadRestores(nodes: seq<SubtaskSnapshot>, events: seq<RecordedEvent>, c: nat)
    requires c <= |events|
    requires forall i :: c <= i < |events| && NodeOf(events[i].event).Some? ==> Assigns(events[..c], NodeOf(events[i].event).value)
    ensures NodesAfter(NodesAfter(nodes, events), events[..c]) == NodesAfter(nodes, events[..c])
  {
    var head, tail := events[..c], events[c..];
    var mid := NodesAfter(nodes, head);
    assert events == head + tail;
    NodesAppend(nodes, head, tail);
    NodesAppend(mid, tail, head);
    forall id ensures Lookup(NodesAfter(mid, tail + head), id) == Lookup(mid, id) {
      HeadRestoresOne(mid, nodes, head, tail, id);
    }
    SameLookupsSameNodes(mid, tail + head);
  }

  lemma HeadRestoresOne(mid: seq<SubtaskSnapshot>, nodes: seq<SubtaskSnapshot>, head: seq<RecordedEvent>, tail: seq<RecordedEvent>, id: string)
    requires mid == NodesAfter(nodes, head)
    requires forall i :: 0 <= i < |tail| && NodeOf(tail[i].event).Some? ==> Assigns(head, NodeOf(tail[i].event).value)
    ensures Lookup(NodesAfter(mid, tail + head), id) == Lookup(mid, id)
  {
    NodesAppend(mid, tail, head);
    var last := NodesAfter(mid, tail);
    NodesLookup(last, id, head);
    NodesLookup(nodes, id, head);
    LookupNamesIt(last, id);
    LookupNamesIt(nodes, id);
    if Assigns(head, id) {
      AssignedForgets(Lookup(last, id), Lookup(nodes, id), id, head);
    } else {
      NodesLookup(mid, id, tail);
      Unnamed(Lookup(mid, id), id, tail);
      HistoryTwice(Lookup(nodes, id), id, head);
    }
  }

  lemma {:induction false} Unnamed(node: Option<SubtaskSnapshot>, id: string, events: seq<RecordedEvent>)
    requires forall i :: 0 <= i < |events| ==> NodeOf(events[i].event) != Some(id)
    ensures NodeHistory(node, id, events) == node
    decreases events
  {
    if events != [] { Unnamed(node, id, events[1..]); }
  }

  // ----- A harmful case -----

  /**
  Replaying a suffix that was already applied is not harmless in general, although each single event is idempotent:
  the second pass sees a subtask that was assigned only later in the first one, so a parent that had completed
  comes back as in progress.
  */
  lemma OverReplayCanCorrupt(t: string, a: string, b: string, w: string, start: TaskSnapshot, suffix: seq<RecordedEvent>)
    requires a != b
    requires start == TaskSnapshot(t, InProgress, [NewNode(a, w)], 0)
    requires |suffix| == 3
    requires suffix[0].event == TaskResumed(t)
    requires suffix[1].event == SubtaskCompleted(t, a, "", true)
    requires suffix[2].event == SubtaskAssigned(t, b, w)
    ensures Fold(start, suffix).status == Completed
    ensures Fold(Fold(start, suffix), suffix).status == InProgress
  {
    var done := SubtaskSnapshot(a, SubCompleted, Some(w), Some(""));
    var once := TaskSnapshot(t, Completed, [done, NewNode(b, w)], 0);
    assert Fold(start, suffix) == once by {
      ReplayThree(start, suffix);
      var s1 := Apply(start, suffix[0].event);
      assert s1 == start;
      var s2 := Apply(s1, suffix[1].event);
      assert s2 == TaskSnapshot(t, Completed, [done], 0);
      assert IndexOf(s2.subtasks, b) == 1;
      assert Apply(s2, suffix[2].event) == once;
    }
    ReplayThree(once, suffix);
    var resumed := once.(status := InProgress);
    assert Apply(once, suffix[0].event) == resumed;
    SecondPass(t, w, done, NewNode(b, w), resumed, suffix[1].event);
    SecondPass(t, w, done, NewNode(b, w), resumed, suffix[2].event);
  }

  /** With a second subtask still assigned, neither event moves the resumed parent out of `InProgress`. */
  lemma SecondPass(t: string, w: string, done: SubtaskSnapshot, late: SubtaskSnapshot, s: TaskSnapshot, e: AgentEvent)
    requires done.status == SubCompleted && done.resultSummary == Some("")
    requires done.subtaskId != late.subtaskId && late == NewNode(late.subtaskId, w)
    requires s == TaskSnapshot(t, InProgress, [done, late], 0)
    requires e == SubtaskCompleted(t, done.subtaskId, "", true) || e == SubtaskAssigned(t, late.subtaskId, w)
    ensures Apply(s, e) == s
  {
    assert IndexOf(s.subtasks[1..], late.subtaskId) == 0;
    assert ApplyToNodes(s.subtasks, e) == s.subtasks;
    assert s.subtasks[1].status == SubAssigned;
  }

  lemma ReplayThree(s: TaskSnapshot, events: seq<RecordedEvent>)
    requires |events| == 3
    ensures Fold(s, events) == Apply(Apply(Apply(s, events[0].event), events[1].event), events[2].event)
  {
    assert events == [events[0]] + [events[1]] + [events[2]];
    FoldPush(s, [events[0]] + [events[1]], events[2]);
    FoldPush(s, [events[0]], events[1]);
    FoldPush(s, [], events[0]);
    assert [] + [events[0]] == [events[0]];
  }
}
