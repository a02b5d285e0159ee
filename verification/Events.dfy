/**
The event log: what agents record, the per-subject streams the records go to, and the in-memory store that
hands out one global offset counter.
*/
module Events {

  /** The event variants of the log. A payload that neither the reducer nor the checkpoint manager reads is dropped. */
  datatype AgentEvent =
    | TaskCreated(taskId: string)
    | SubtaskAssigned(taskId: string, subtaskId: string, workerId: string)
    | SubtaskStarted(taskId: string, subtaskId: string, workerId: string)
    | SubtaskProgress(taskId: string, subtaskId: string, workerId: string)
    | ToolInvoked(taskId: string, subtaskId: string)
    | ToolResult(taskId: string, subtaskId: string)
    | FileModified(taskId: string, subtaskId: string)
    | EditIntent(workerId: string)
    | SubtaskCompleted(taskId: string, subtaskId: string, summary: string, success: bool)
    | SubtaskFailed(taskId: string, subtaskId: string, error: string, recoverable: bool)
    | CheckpointCreated(taskId: string, snapshotId: string, eventOffset: nat)
    | TaskCompleted(taskId: string)
    | TaskFailed(taskId: string, error: string)
    | TaskPaused(taskId: string)
    | TaskResumed(taskId: string)
    | TaskCancelled(taskId: string)
    | TaskUpdated(taskId: string, newStatus: string)
    | SubtaskRetried(taskId: string, subtaskId: string, attemptId: nat)

  datatype RecordedEvent = RecordedEvent(offset: nat, event: AgentEvent, subject: string)

  type Streams = map<string, seq<RecordedEvent>>

  function StreamOf(streams: Streams, subject: string): seq<RecordedEvent> {
    if subject in streams then streams[subject] else []
  }

  /** The events at `from` or later. */
  function From(stream: seq<RecordedEvent>, from: nat): seq<RecordedEvent> {
    if stream == [] then []
    else if stream[0].offset >= from then [stream[0]] + From(stream[1..], from)
    else From(stream[1..], from)
  }

  /** The events at `upTo` or earlier. */
  function UpTo(stream: seq<RecordedEvent>, upTo: nat): seq<RecordedEvent> {
    if stream == [] then []
    else if stream[0].offset <= upTo then [stream[0]] + UpTo(stream[1..], upTo)
    else UpTo(stream[1..], upTo)
  }

  /** Offset of the last event, 0 for an empty stream. */
  function LastOffset(stream: seq<RecordedEvent>): nat {
    if stream == [] then 0 else stream[|stream| - 1].offset
  }

  ghost predicate Ordered(stream: seq<RecordedEvent>) {
    && (forall i :: 0 <= i < |stream| ==> stream[i].offset >= 1)
    && (forall i, j :: 0 <= i < j < |stream| ==> stream[i].offset < stream[j].offset)
  }

  lemma {:induction false} FromPush(stream: seq<RecordedEvent>, e: RecordedEvent, from: nat)
    ensures From(stream + [e], from) == From(stream, from) + (if e.offset >= from then [e] else [])
  {
    if stream == [] {
      assert stream + [e] == [e];
      assert From([e][1..], from) == [];
    } else {
      assert (stream + [e])[1..] == stream[1..] + [e];
      FromPush(stream[1..], e, from);
    }
  }

  lemma {:induction false} UpToPush(stream: seq<RecordedEvent>, e: RecordedEvent, upTo: nat)
    ensures UpTo(stream + [e], upTo) == UpTo(stream, upTo) + (if e.offset <= upTo then [e] else [])
  {
    if stream == [] {
      assert stream + [e] == [e];
      assert UpTo([e][1..], upTo) == [];
    } else {
      assert (stream + [e])[1..] == stream[1..] + [e];
      UpToPush(stream[1..], e, upTo);
    }
  }

  lemma {:induction false} NoneFrom(stream: seq<RecordedEvent>, from: nat)
    requires forall i :: 0 <= i < |stream| ==> stream[i].offset < from
    ensures From(stream, from) == []
  {
    if stream != [] { NoneFrom(stream[1..], from); }
  }

  /** A cut splits an ordered stream: every event lies on exactly one side of it, in the stream's order. */
  lemma {:induction false} CutSplits(stream: seq<RecordedEvent>, cut: nat)
    requires Ordered(stream)
    ensures UpTo(stream, cut) + From(stream, cut + 1) == stream
  {
    if stream != [] {
      var init, last := stream[..|stream| - 1], stream[|stream| - 1];
      assert stream == init + [last];
      CutSplits(init, cut);
      FromPush(init, last, cut + 1);
      UpToPush(init, last, cut);
      if last.offset <= cut { NoneFrom(init, cut + 1); }
    }
  }

  /** Reading an ordered stream from any offset ends at the stream's own last event, if that is read at all. */
  lemma {:induction false} FromEndsAtLast(stream: seq<RecordedEvent>, from: nat)
    requires Ordered(stream)
    ensures From(stream, from) == [] <==> (stream == [] || LastOffset(stream) < from)
    ensures From(stream, from) != [] ==> LastOffset(From(stream, from)) == LastOffset(stream)
  {
    if stream != [] {
      var init, last := stream[..|stream| - 1], stream[|stream| - 1];
      assert stream == init + [last];
      FromPush(init, last, from);
      if last.offset < from { NoneFrom(stream, from); }
    }
  }

  /** The in-memory store. An append takes its offset and pushes in one step. */
  class InMemoryEventStore {
    var streams: Streams
    var globalOffset: nat

    ghost predicate Valid()
      reads this
    {
      && globalOffset >= 1
      && forall s :: s in streams ==>
           Ordered(streams[s]) && LastOffset(streams[s]) < globalOffset
    }

    function Stream(subject: string): seq<RecordedEvent>
      reads this
    {
      StreamOf(streams, subject)
    }

    constructor ()
      ensures Valid() && streams == map[] && globalOffset == 1
    {
      streams, globalOffset := map[], 1;
    }

    method Append(subject: string, event: AgentEvent) returns (offset: nat)
      requires Valid()
      modifies this
      ensures Valid()
      ensures offset == old(globalOffset) && globalOffset == old(globalOffset) + 1
      ensures streams == old(streams)[subject := old(Stream(subject)) + [RecordedEvent(offset, event, subject)]]
    {
      offset := globalOffset;
      globalOffset := globalOffset + 1;
      var before := Stream(subject);
      streams := streams[subject := before + [RecordedEvent(offset, event, subject)]];
      assert forall i :: 0 <= i < |before| ==> before[i].offset <= LastOffset(before);
    }

    method ReadFrom(subject: string, offset: nat) returns (events: seq<RecordedEvent>)
      ensures events == From(Stream(subject), offset)
    {
      var stream := Stream(subject);
      events := [];
      for i := 0 to |stream|
        invariant events == From(stream[..i], offset)
      {
        assert stream[..i + 1] == stream[..i] + [stream[i]];
        FromPush(stream[..i], stream[i], offset);
        if stream[i].offset >= offset {
          events := events + [stream[i]];
        }
      }
      assert stream[..|stream|] == stream;
    }

    method LatestOffset(subject: string) returns (offset: nat)
      ensures offset == LastOffset(Stream(subject))
    {
      var stream := Stream(subject);
      offset := if stream == [] then 0 else stream[|stream| - 1].offset;
    }
  }
}
