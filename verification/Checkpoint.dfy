/**
Checkpoints: a snapshot of a task plus the events after it must mean the same as replaying the task's whole stream.
*/
module Checkpoint {
  import opened Prelude
  import opened Text
  import opened Events
  import opened TaskReducer

  datatype Config = Config(snapshotInterval: nat, snapshotPrefix: string, subjectPrefix: string)

  type Snapshots = map<string, TaskSnapshot>

  function SubjectFor(cfg: Config, task: string): string {
    cfg.subjectPrefix + task
  }

  // ----- Snapshot keys -----

  function KeyPrefix(prefix: string, task: string): string {
    prefix + ":" + task + ":"
  }

  function SnapshotKey(prefix: string, task: string, offset: nat): string {
    KeyPrefix(prefix, task) + Decimal(offset)
  }

  /**
  The prefix lookup finds exactly the task's own snapshots, and those of tasks whose id continues this id after
  a colon. Without such ids it is exact.
  */
  lemma LookupMatchesIff(prefix: string, task: string, other: string, offset: nat)
    ensures StartsWith(SnapshotKey(prefix, other, offset), KeyPrefix(prefix, task))
        <==> task == other || StartsWith(other, task + ":")
  {
    var head := prefix + ":";
    assert KeyPrefix(prefix, task) == head + (task + ":");
    assert SnapshotKey(prefix, other, offset) == head + (other + ":" + Decimal(offset));
    CancelPrefix(head, task + ":", other + ":" + Decimal(offset));
    DecimalHasNoColon(offset);
    WordIsPrefixIff(task, other, Decimal(offset));
  }

  /** Two tasks never share a stream, and one task never files two cuts under one key. */
  lemma KeysAreSeparate(cfg: Config, a: string, b: string, m: nat, n: nat)
    ensures SubjectFor(cfg, a) == SubjectFor(cfg, b) <==> a == b
    ensures SnapshotKey(cfg.snapshotPrefix, a, m) == SnapshotKey(cfg.snapshotPrefix, a, n) <==> m == n
  {
    var p := cfg.subjectPrefix;
    assert SubjectFor(cfg, a)[|p|..] == a && SubjectFor(cfg, b)[|p|..] == b;
    var head := KeyPrefix(cfg.snapshotPrefix, a);
    assert SnapshotKey(cfg.snapshotPrefix, a, m)[|head|..] == Decimal(m);
    assert SnapshotKey(cfg.snapshotPrefix, a, n)[|head|..] == Decimal(n);
    DecimalReadsBack(m);
    DecimalReadsBack(n);
  }

  // ----- What a stored snapshot stands for -----

  /** The snapshot is the replay of the task's events up to the offset it names, filed under its own key. */
  ghost predicate SnapshotExact(cfg: Config, streams: Streams, key: string, snap: TaskSnapshot) {
    && key == SnapshotKey(cfg.snapshotPrefix, snap.taskId, snap.lastEventOffset)
    && snap == Fold(Initial(snap.taskId, snap.lastEventOffset),
                    UpTo(StreamOf(streams, SubjectFor(cfg, snap.taskId)), snap.lastEventOffset))
  }

  ghost predicate AllExact(cfg: Config, streams: Streams, snapshots: Snapshots) {
    forall k :: k in snapshots ==> SnapshotExact(cfg, streams, k, snapshots[k])
  }

  /** No stored snapshot belongs to a task whose id continues this id after a colon. */
  ghost predicate Unshadowed(snapshots: Snapshots, task: string) {
    forall k :: k in snapshots ==> !StartsWith(snapshots[k].taskId, task + ":")
  }

  predicate Matches(cfg: Config, key: string, task: string) {
    StartsWith(key, KeyPrefix(cfg.snapshotPrefix, task))
  }

  /** What the lookup may return: nothing if no key matches, otherwise some matching snapshot of the highest offset. */
  ghost predicate IsLatest(cfg: Config, snapshots: Snapshots, task: string, latest: Option<TaskSnapshot>) {
    match latest
    case None => forall k :: k in snapshots ==> !Matches(cfg, k, task)
    case Some(s) =>
      && (exists k :: k in snapshots && Matches(cfg, k, task) && snapshots[k] == s)
      && (forall k :: k in snapshots && Matches(cfg, k, task) ==> snapshots[k].lastEventOffset <= s.lastEventOffset)
  }

  lemma LatestIsOwn(cfg: Config, streams: Streams, snapshots: Snapshots, task: string, latest: Option<TaskSnapshot>)
    requires AllExact(cfg, streams, snapshots) && Unshadowed(snapshots, task)
    requires IsLatest(cfg, snapshots, task, latest) && latest.Some?
    ensures latest.value.taskId == task
    ensures exists k :: k in snapshots && SnapshotExact(cfg, streams, k, latest.value)
  {
    var k :| k in snapshots && Matches(cfg, k, task) && snapshots[k] == latest.value;
    assert SnapshotExact(cfg, streams, k, snapshots[k]);
    LookupMatchesIff(cfg.snapshotPrefix, task, latest.value.taskId, latest.value.lastEventOffset);
  }

  // ----- Recovery -----

  /** Replays events onto a snapshot and moves its offset to the last of them. */
  function Resume(start: TaskSnapshot, events: seq<RecordedEvent>): TaskSnapshot {
    Fold(start, events).(lastEventOffset := if events == [] then start.lastEventOffset else LastOffset(events))
  }

  /** Recovery from a looked-up snapshot, or from scratch. */
  function RecoverFrom(cfg: Config, streams: Streams, task: string, latest: Option<TaskSnapshot>): TaskSnapshot {
    var stream := StreamOf(streams, SubjectFor(cfg, task));
    match latest
    case Some(snap) => Resume(snap, From(stream, snap.lastEventOffset + 1))
    case None => Resume(Initial(task, 0), From(stream, 0))
  }

  /** The simple meaning of a task: replay everything. */
  function FullReplay(cfg: Config, streams: Streams, task: string): TaskSnapshot {
    var stream := StreamOf(streams, SubjectFor(cfg, task));
    Fold(Initial(task, LastOffset(stream)), stream)
  }

  predicate SameTaskState(a: TaskSnapshot, b: TaskSnapshot) {
    a.taskId == b.taskId && a.status == b.status && a.subtasks == b.subtasks
  }

  /**
  The fast form refines the simple one: whichever exact snapshot is picked, every event is applied exactly once, in
  order.
  */
  lemma RecoverIsReplay(cfg: Config, streams: Streams, key: string, snap: TaskSnapshot)
    requires SnapshotExact(cfg, streams, key, snap)
    requires Ordered(StreamOf(streams, SubjectFor(cfg, snap.taskId)))
    ensures
      var stream := StreamOf(streams, SubjectFor(cfg, snap.taskId));
      var r := RecoverFrom(cfg, streams, snap.taskId, Some(snap));
      && SameTaskState(r, FullReplay(cfg, streams, snap.taskId))
      && r.lastEventOffset == if LastOffset(stream) > snap.lastEventOffset then LastOffset(stream) else snap.lastEventOffset
  {
    ResumeIsReplay(snap.taskId, StreamOf(streams, SubjectFor(cfg, snap.taskId)), snap.lastEventOffset);
  }

  lemma ResumeIsReplay(task: string, stream: seq<RecordedEvent>, cut: nat)
    requires Ordered(stream)
    ensures
      var r := Resume(Fold(Initial(task, cut), UpTo(stream, cut)), From(stream, cut + 1));
      && SameTaskState(r, Fold(Initial(task, LastOffset(stream)), stream))
      && r.lastEventOffset == if LastOffset(stream) > cut then LastOffset(stream) else cut
  {
    var snap, rest := Fold(Initial(task, cut), UpTo(stream, cut)), From(stream, cut + 1);
    CutSplits(stream, cut);
    FoldAppend(Initial(task, cut), UpTo(stream, cut), rest);
    FoldFrame(Initial(task, cut), stream, LastOffset(stream));
    FoldFrame(Initial(task, cut), UpTo(stream, cut), cut);
    FoldFrame(snap, rest, cut);
    FromEndsAtLast(stream, cut + 1);
  }

  lemma RecoverFromScratchIsReplay(cfg: Config, streams: Streams, task: string)
    ensures RecoverFrom(cfg, streams, task, None) == FullReplay(cfg, streams, task)
  {
    var stream := StreamOf(streams, SubjectFor(cfg, task));
    AllFromZero(stream);
    FoldFrame(Initial(task, 0), stream, LastOffset(stream));
  }

  /** A task of which nothing is recorded recovers as created, without subtasks. */
  lemma NothingRecorded(cfg: Config, streams: Streams, task: string)
    requires StreamOf(streams, SubjectFor(cfg, task)) == []
    ensures RecoverFrom(cfg, streams, task, None) == TaskSnapshot(task, Created, [], 0)
  {
  }

  /** Recovery is exact for every task that no other snapshotted task shadows. */
  lemma RecoveryExact(cfg: Config, streams: Streams, snapshots: Snapshots, task: string, latest: Option<TaskSnapshot>)
    requires AllExact(cfg, streams, snapshots) && Unshadowed(snapshots, task)
    requires Ordered(StreamOf(streams, SubjectFor(cfg, task)))
    requires IsLatest(cfg, snapshots, task, latest)
    ensures SameTaskState(RecoverFrom(cfg, streams, task, latest), FullReplay(cfg, streams, task))
  {
    match latest
    case None => RecoverFromScratchIsReplay(cfg, streams, task);
    case Some(snap) =>
      LatestIsOwn(cfg, streams, snapshots, task, latest);
      var k :| k in snapshots && SnapshotExact(cfg, streams, k, snap);
      RecoverIsReplay(cfg, streams, k, snap);
  }

  /** No stored cut is past the end of its stream. */
  ghost predicate NotAhead(cfg: Config, streams: Streams, snapshots: Snapshots) {
    forall k :: k in snapshots ==>
      snapshots[k].lastEventOffset <= LastOffset(StreamOf(streams, SubjectFor(cfg, snapshots[k].taskId)))
  }

  /** Against the in-memory store, whose cuts never run ahead of the stream, the last offset is the stream's own too. */
  lemma RecoveryExactInMemory(cfg: Config, streams: Streams, snapshots: Snapshots, task: string, latest: Option<TaskSnapshot>)
    requires AllExact(cfg, streams, snapshots) && NotAhead(cfg, streams, snapshots)
    requires Ordered(StreamOf(streams, SubjectFor(cfg, task)))
    requires IsLatest(cfg, snapshots, task, latest)
    ensures Unshadowed(snapshots, task) ==> RecoverFrom(cfg, streams, task, latest) == FullReplay(cfg, streams, task)
  {
    if Unshadowed(snapshots, task) {
      RecoveryExact(cfg, streams, snapshots, task, latest);
      var stream := StreamOf(streams, SubjectFor(cfg, task));
      FoldFrame(Initial(task, LastOffset(stream)), stream, 0);
      if latest.Some? {
        LatestIsOwn(cfg, streams, snapshots, task, latest);
        var k :| k in snapshots && Matches(cfg, k, task) && snapshots[k] == latest.value;
        RecoverIsReplay(cfg, streams, k, latest.value);
      } else {
        RecoverFromScratchIsReplay(cfg, streams, task);
      }
    }
  }

  /**
  Shadowing is real: with a snapshot of `task:suffix` only, recovering `task` finds it and answers for the other task.
  */
  lemma ShadowedRecoveryAnswersForAnotherTask(cfg: Config, streams: Streams, task: string, suffix: string, offset: nat)
    ensures
      var other := task + ":" + suffix;
      var snap := Initial(other, offset);
      var snapshots := map[SnapshotKey(cfg.snapshotPrefix, other, offset) := snap];
      && IsLatest(cfg, snapshots, task, Some(snap))
      && RecoverFrom(cfg, streams, task, Some(snap)).taskId == other != task
  {
    var other := task + ":" + suffix;
    var snap := Initial(other, offset);
    var key := SnapshotKey(cfg.snapshotPrefix, other, offset);
    LookupMatchesIff(cfg.snapshotPrefix, task, other, offset);
    assert other[..|task + ":"|] == task + ":";
    assert key in map[key := snap] && Matches(cfg, key, task);
    FoldFrame(snap, From(StreamOf(streams, SubjectFor(cfg, task)), offset + 1), 0);
    assert |other| > |task|;
  }

  // ----- Appending keeps stored snapshots exact -----

  /** A push past every stored cut leaves all snapshots exact. */
  lemma PushKeepsExact(cfg: Config, streams: Streams, snapshots: Snapshots, e: RecordedEvent)
    requires AllExact(cfg, streams, snapshots)
    requires forall k :: k in snapshots && SubjectFor(cfg, snapshots[k].taskId) == e.subject ==>
               snapshots[k].lastEventOffset < e.offset
    ensures AllExact(cfg, streams[e.subject := StreamOf(streams, e.subject) + [e]], snapshots)
  {
    var after := streams[e.subject := StreamOf(streams, e.subject) + [e]];
    forall k | k in snapshots ensures SnapshotExact(cfg, after, k, snapshots[k]) {
      var snap := snapshots[k];
      assert SnapshotExact(cfg, streams, k, snap);
      if SubjectFor(cfg, snap.taskId) == e.subject {
        UpToPush(StreamOf(streams, e.subject), e, snap.lastEventOffset);
        assert UpTo(StreamOf(streams, e.subject), snap.lastEventOffset) + [] == UpTo(StreamOf(streams, e.subject), snap.lastEventOffset);
      }
    }
  }

  /** The replay that creation files at a cut is exact, and filing it keeps the rest exact. */
  lemma InsertKeepsExact(cfg: Config, streams: Streams, snapshots: Snapshots, task: string, cut: nat, snap: TaskSnapshot)
    requires AllExact(cfg, streams, snapshots)
    requires snap == Fold(Initial(task, cut), UpTo(StreamOf(streams, SubjectFor(cfg, task)), cut))
    ensures AllExact(cfg, streams, snapshots[SnapshotKey(cfg.snapshotPrefix, task, cut) := snap])
    ensures snap.taskId == task && snap.lastEventOffset == cut
  {
    FoldFrame(Initial(task, cut), UpTo(StreamOf(streams, SubjectFor(cfg, task)), cut), cut);
  }

  /** The task an event asks to be snapshotted, when it names one. */
  function ExtractTaskId(e: AgentEvent): Option<string> {
    if e.EditIntent? then None else Some(e.taskId)
  }

  // ----- Recording -----

  predicate Due(cfg: Config, count: nat) {
    cfg.snapshotInterval != 0 && count % cfg.snapshotInterval == 0
  }

  /** Everything recording changes. */
  datatype Recording = Recording(streams: Streams, snapshots: Snapshots, nextOffset: nat, count: nat)

  function Pushed(m: Recording, subject: string, event: AgentEvent): Recording {
    m.(streams := m.streams[subject := StreamOf(m.streams, subject) + [RecordedEvent(m.nextOffset, event, subject)]],
       nextOffset := m.nextOffset + 1)
  }

  /** What creating a snapshot does: the whole stream's replay is filed, and its marker is the stream's next event. */
  function Checkpointed(cfg: Config, m: Recording, task: string): Recording {
    var stream := StreamOf(m.streams, SubjectFor(cfg, task));
    var cut := LastOffset(stream);
    var id := SnapshotKey(cfg.snapshotPrefix, task, cut);
    Pushed(m.(snapshots := m.snapshots[id := Fold(Initial(task, cut), stream)]),
           SubjectFor(cfg, task), CheckpointCreated(task, id, cut))
  }

  function Counted(cfg: Config, m: Recording, task: Option<string>): Recording {
    var n := m.(count := m.count + 1);
    if task.Some? && Due(cfg, n.count) then Checkpointed(cfg, n, task.value) else n
  }

  function Recorded(cfg: Config, m: Recording, subject: string, event: AgentEvent): Recording {
    Counted(cfg, Pushed(m, subject, event), ExtractTaskId(event))
  }

  /** Recording a list of events, each to a subject. */
  function RecordedAll(cfg: Config, m: Recording, calls: seq<(string, AgentEvent)>): Recording {
    if calls == [] then m
    else
      var last := calls[|calls| - 1];
      Recorded(cfg, RecordedAll(cfg, m, calls[..|calls| - 1]), last.0, last.1)
  }

  /** Of the events numbered from `from + 1` on, how many name a task and have a number the interval divides. */
  function Marks(interval: nat, from: nat, calls: seq<(string, AgentEvent)>): nat {
    if calls == [] then 0
    else
      var number := from + |calls|;
      Marks(interval, from, calls[..|calls| - 1])
      + (if interval > 0 && number % interval == 0 && !calls[|calls| - 1].1.EditIntent? then 1 else 0)
  }

  lemma RecordedCounts(cfg: Config, m: Recording, subject: string, event: AgentEvent)
    ensures
      var t := Recorded(cfg, m, subject, event);
      var marked := cfg.snapshotInterval > 0 && (m.count + 1) % cfg.snapshotInterval == 0 && !event.EditIntent?;
      t.count == m.count + 1 && t.nextOffset == m.nextOffset + (if marked then 2 else 1)
  {
  }

  /** Every event takes one offset, and one more exactly for each snapshot it causes. */
  lemma {:induction false} RecordingCounts(cfg: Config, m: Recording, calls: seq<(string, AgentEvent)>)
    ensures
      var t := RecordedAll(cfg, m, calls);
      && t.count == m.count + |calls|
      && t.nextOffset == m.nextOffset + |calls| + Marks(cfg.snapshotInterval, m.count, calls)
  {
    if calls != [] {
      var init, last := calls[..|calls| - 1], calls[|calls| - 1];
      RecordingCounts(cfg, m, init);
      RecordedCounts(cfg, RecordedAll(cfg, m, init), last.0, last.1);
    }
  }

  /** If all events name a task, a new manager snapshots once per full interval, and never without one. */
  lemma {:induction false} OnePerInterval(interval: nat, calls: seq<(string, AgentEvent)>)
    requires forall i :: 0 <= i < |calls| ==> !calls[i].1.EditIntent?
    ensures Marks(interval, 0, calls) == if interval == 0 then 0 else |calls| / interval
  {
    if calls != [] {
      OnePerInterval(interval, calls[..|calls| - 1]);
      if interval > 0 { NextQuotient(|calls| - 1, interval); }
    }
  }

  lemma NextQuotient(n: nat, d: nat)
    requires d > 0
    ensures (n + 1) / d == n / d + (if (n + 1) % d == 0 then 1 else 0)
  {
    var q, r := n / d, n % d;
    if r == d - 1 {
      MultiplesGrow(d, q, q);
      QuotientIs(n + 1, d, q + 1, 0);
    } else {
      QuotientIs(n + 1, d, q, r + 1);
    }
  }

  lemma MultiplesGrow(d: nat, a: int, b: int)
    ensures a <= b ==> d * a <= d * b
    ensures d * (a + 1) == d * a + d
  {
  }

  lemma QuotientIs(n: int, d: nat, q: int, r: int)
    requires d > 0 && n == d * q + r && 0 <= r < d
    ensures n / d == q && n % d == r
  {
    var p := n / d;
    assert n == d * p + n % d;
    MultiplesGrow(d, p + 1, q);
    MultiplesGrow(d, q + 1, p);
    MultiplesGrow(d, p, q);
    MultiplesGrow(d, q, p);
  }

  /**
  The snapshot that a due event causes is the full replay of the task it names, the event included, and the next event
  of that task says where it was filed and up to which offset it reaches.
  */
  lemma DueFilesItsTask(cfg: Config, m: Recording, subject: string, event: AgentEvent)
    ensures
      var t, streams := Recorded(cfg, m, subject, event), Pushed(m, subject, event).streams;
      if cfg.snapshotInterval > 0 && (m.count + 1) % cfg.snapshotInterval == 0 && !event.EditIntent? then
        var replay, target := FullReplay(cfg, streams, event.taskId), SubjectFor(cfg, event.taskId);
        var id := SnapshotKey(cfg.snapshotPrefix, event.taskId, replay.lastEventOffset);
        var marker := CheckpointCreated(event.taskId, id, replay.lastEventOffset);
        && t.snapshots == m.snapshots[id := replay]
        && t.streams == streams[target := StreamOf(streams, target) + [RecordedEvent(m.nextOffset + 1, marker, target)]]
      else t.snapshots == m.snapshots && t.streams == streams
  {
    if !event.EditIntent? {
      var stream := StreamOf(Pushed(m, subject, event).streams, SubjectFor(cfg, event.taskId));
      FoldFrame(Initial(event.taskId, LastOffset(stream)), stream, 0);
    }
  }

  // ----- The manager -----

  /** The checkpoint manager over the in-memory store. */
  class CheckpointManager {
    const cfg: Config
    const store: InMemoryEventStore
    var snapshots: Snapshots
    var eventCount: nat

    /** Stored snapshots are exact and none is ahead of its stream. */
    ghost predicate Valid()
      reads this`snapshots, store
    {
      && store.Valid()
      && AllExact(cfg, store.streams, snapshots)
      && NotAhead(cfg, store.streams, snapshots)
    }

    ghost function View(): Recording
      reads this, store
    {
      Recording(store.streams, snapshots, store.globalOffset, eventCount)
    }

    constructor (cfg: Config, store: InMemoryEventStore)
      requires store.Valid()
      ensures Valid() && this.cfg == cfg && this.store == store
      ensures View() == Recording(store.streams, map[], store.globalOffset, 0)
    {
      this.cfg, this.store, snapshots, eventCount := cfg, store, map[], 0;
    }

    /** One append through the store. */
    method Append(subject: string, event: AgentEvent) returns (offset: nat)
      requires Valid()
      modifies store
      ensures Valid() && offset == old(store.globalOffset) && View() == Pushed(old(View()), subject, event)
    {
      var rec := RecordedEvent(store.globalOffset, event, subject);
      assert forall s :: s in store.streams ==> LastOffset(store.streams[s]) < rec.offset;
      PushKeepsExact(cfg, store.streams, snapshots, rec);
      offset := store.Append(subject, event);
    }

    method CreateSnapshot(task: string) returns (id: string)
      requires Valid()
      modifies this`snapshots, store
      ensures Valid() && View() == Checkpointed(cfg, old(View()), task)
      ensures id == SnapshotKey(cfg.snapshotPrefix, task, LastOffset(old(store.Stream(SubjectFor(cfg, task)))))
    {
      var subject := SubjectFor(cfg, task);
      var latest := store.LatestOffset(subject);
      id := SnapshotKey(cfg.snapshotPrefix, task, latest);
      var events := store.ReadFrom(subject, 0);
      ghost var stream := store.Stream(subject);
      AllFromZero(stream);
      var kept := EventsUpTo(events, latest);
      AllUpToLast(stream);
      var cell := new SnapshotCell(Initial(task, latest));
      cell.Replay(kept);
      var snapshot := cell.View();
      InsertKeepsExact(cfg, store.streams, snapshots, task, latest, snapshot);
      snapshots := snapshots[id := snapshot];
      var _ := Append(subject, CheckpointCreated(task, id, latest));
    }

    /** Counts one more event and snapshots its task when one is due. */
    method CountEvent(task: Option<string>)
      requires Valid()
      modifies this, store
      ensures Valid() && View() == Counted(cfg, old(View()), task)
    {
      eventCount := eventCount + 1;
      if Due(cfg, eventCount) && task.Some? {
        var _ := CreateSnapshot(task.value);
      }
    }

    /** Records an event; every `snapshotInterval`-th one also snapshots the task it names. */
    method RecordEvent(subject: string, event: AgentEvent) returns (offset: nat)
      requires Valid()
      modifies this, store
      ensures Valid() && offset == old(store.globalOffset) && View() == Recorded(cfg, old(View()), subject, event)
    {
      offset := Append(subject, event);
      CountEvent(ExtractTaskId(event));
    }

    method FindLatestSnapshot(task: string) returns (latest: Option<TaskSnapshot>)
      ensures IsLatest(cfg, snapshots, task, latest)
    {
      latest := None;
      var latestOffset := 0;
      var rest := snapshots.Keys;
      while rest != {}
        invariant rest <= snapshots.Keys
        invariant latest.None? ==> latestOffset == 0
        invariant latest.Some? ==> latestOffset == latest.value.lastEventOffset
        invariant IsLatest(cfg, map k | k in snapshots && k !in rest :: snapshots[k], task, latest)
        decreases |rest|
      {
        ghost var seen := map k | k in snapshots && k !in rest :: snapshots[k];
        var key :| key in rest;
        var value := snapshots[key];
        if Matches(cfg, key, task) && value.lastEventOffset >= latestOffset {
          latestOffset := value.lastEventOffset;
          latest := Some(value);
        }
        rest := rest - {key};
        ghost var now := map k | k in snapshots && k !in rest :: snapshots[k];
        assert now == seen[key := value];
        if latest == Some(value) && Matches(cfg, key, task) {
          assert key in now && now[key] == value;
        } else if latest.Some? {
          ghost var k :| k in seen && Matches(cfg, k, task) && seen[k] == latest.value;
          assert k in now && now[k] == latest.value;
        }
      }
      assert (map k | k in snapshots && k !in rest :: snapshots[k]) == snapshots;
    }

    /** Replays the stored events at `from` or later onto a snapshot. */
    method ReplayOnto(start: TaskSnapshot, subject: string, from: nat) returns (state: TaskSnapshot)
      ensures state == Resume(start, From(store.Stream(subject), from))
    {
      var events := store.ReadFrom(subject, from);
      var cell := new SnapshotCell(start);
      cell.Replay(events);
      FoldFrame(start, events, start.lastEventOffset);
      cell.lastEventOffset := if events == [] then cell.lastEventOffset else events[|events| - 1].offset;
      state := cell.View();
    }

    method RecoverWith(task: string, snapshot: Option<TaskSnapshot>) returns (state: TaskSnapshot)
      ensures state == RecoverFrom(cfg, store.streams, task, snapshot)
    {
      var subject := SubjectFor(cfg, task);
      if snapshot.Some? {
        state := ReplayOnto(snapshot.value, subject, snapshot.value.lastEventOffset + 1);
      } else {
        state := ReplayOnto(Initial(task, 0), subject, 0);
      }
    }

    /**
    Recovery. In every state that any sequence of calls can reach it equals a full replay of the task's stream,
    last offset included, as long as no other snapshotted task shadows the id.
    */
    method Recover(task: string) returns (state: TaskSnapshot)
      requires Valid()
      ensures Unshadowed(snapshots, task) ==> state == FullReplay(cfg, store.streams, task)
    {
      var snapshot := FindLatestSnapshot(task);
      RecoveryExactInMemory(cfg, store.streams, snapshots, task, snapshot);
      state := RecoverWith(task, snapshot);
    }
  }

  lemma {:induction false} AllFromZero(stream: seq<RecordedEvent>)
    ensures From(stream, 0) == stream
  {
    if stream != [] { AllFromZero(stream[1..]); }
  }

  lemma AllUpToLast(stream: seq<RecordedEvent>)
    requires Ordered(stream)
    ensures UpTo(stream, LastOffset(stream)) == stream
  {
    CutSplits(stream, LastOffset(stream));
    FromEndsAtLast(stream, LastOffset(stream) + 1);
  }

  method EventsUpTo(events: seq<RecordedEvent>, upTo: nat) returns (kept: seq<RecordedEvent>)
    ensures kept == UpTo(events, upTo)
  {
    kept := [];
    for i := 0 to |events|
      invariant kept == UpTo(events[..i], upTo)
    {
      assert events[..i + 1] == events[..i] + [events[i]];
      UpToPush(events[..i], events[i], upTo);
      if events[i].offset <= upTo {
        kept := kept + [events[i]];
      }
    }
    assert events[..|events|] == events;
  }
}
