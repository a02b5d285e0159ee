/**
Checkpointing with many clients at once: appends that take their offset and push in two steps, and snapshot creation
split at every await. A cut may be any offset between the subject's last event and the global counter, which covers
both the in-memory store (the subject's last offset) and the JetStream store (the stream's last sequence).
*/
module CheckpointProtocol {
  import opened Prelude
  import opened Events
  import opened TaskReducer
  import opened Checkpoint

  datatype Client =
    | Idle
    | Appending(subject: string, offset: nat, event: AgentEvent)
    | CutRead(task: string, cut: nat)
    | Built(task: string, cut: nat, snapshot: TaskSnapshot)

  datatype State = State(
    streams: Streams,
    nextOffset: nat,
    snapshots: Snapshots,
    clients: map<nat, Client>)

  datatype Action =
    | TakeOffset(subject: string, event: AgentEvent)
    | Push
    | ReadCut(task: string, cut: nat)
    | Replay
    | File
    | Crash

  function ClientOf(s: State, c: nat): Client {
    if c in s.clients then s.clients[c] else Idle
  }

  /** No append to this subject has taken its offset without pushing yet. */
  ghost predicate Quiet(s: State, subject: string) {
    forall c :: c in s.clients && s.clients[c].Appending? ==> s.clients[c].subject != subject
  }

  /** Every append to this subject still to be pushed lies past the cut. */
  ghost predicate Closed(s: State, subject: string, cut: nat) {
    && cut < s.nextOffset
    && forall c :: c in s.clients && s.clients[c].Appending? && s.clients[c].subject == subject ==>
         cut < s.clients[c].offset
  }

  /**
  What one client may do next. An append starts only when no other append to the same subject is half done, and a
  cut is read at or past the subject's last event and before any event still to come.
  */
  ghost predicate Enabled(cfg: Config, s: State, c: nat, a: Action) {
    match a
    case TakeOffset(subject, _) => ClientOf(s, c).Idle? && Quiet(s, subject)
    case Push => ClientOf(s, c).Appending?
    case ReadCut(task, cut) =>
      && ClientOf(s, c).Idle?
      && LastOffset(StreamOf(s.streams, SubjectFor(cfg, task))) <= cut
      && Closed(s, SubjectFor(cfg, task), cut)
    case Replay => ClientOf(s, c).CutRead?
    case File => ClientOf(s, c).Built?
    case Crash => true
  }

  ghost function Step(cfg: Config, s: State, c: nat, a: Action): State
    requires Enabled(cfg, s, c, a)
  {
    match a
    case TakeOffset(subject, event) =>
      s.(nextOffset := s.nextOffset + 1, clients := s.clients[c := Appending(subject, s.nextOffset, event)])
    case Push =>
      var Appending(subject, offset, event) := ClientOf(s, c);
      s.(streams := s.streams[subject := StreamOf(s.streams, subject) + [RecordedEvent(offset, event, subject)]],
         clients := s.clients[c := Idle])
    case ReadCut(task, cut) => s.(clients := s.clients[c := CutRead(task, cut)])
    case Replay =>
      var CutRead(task, cut) := ClientOf(s, c);
      var events := UpTo(StreamOf(s.streams, SubjectFor(cfg, task)), cut);
      s.(clients := s.clients[c := Built(task, cut, Fold(Initial(task, cut), events))])
    case File =>
      var Built(task, cut, snapshot) := ClientOf(s, c);
      s.(snapshots := s.snapshots[SnapshotKey(cfg.snapshotPrefix, task, cut) := snapshot],
         clients := s.clients[c := Idle])
    case Crash => s.(clients := s.clients[c := Idle])
  }

  ghost predicate Reaches(cfg: Config, s: State, run: seq<(nat, Action)>, t: State)
    decreases run
  {
    if run == [] then s == t
    else Enabled(cfg, s, run[0].0, run[0].1) && Reaches(cfg, Step(cfg, s, run[0].0, run[0].1), run[1..], t)
  }

  const START := State(map[], 1, map[], map[])

  // ----- The invariant -----

  ghost predicate StreamsOk(s: State) {
    && s.nextOffset >= 1
    && forall x :: x in s.streams ==> Ordered(s.streams[x]) && LastOffset(s.streams[x]) < s.nextOffset
  }

  ghost predicate TicketsOk(s: State) {
    && (forall c :: c in s.clients && s.clients[c].Appending? ==>
          LastOffset(StreamOf(s.streams, s.clients[c].subject)) < s.clients[c].offset < s.nextOffset)
    && (forall c, d :: c in s.clients && d in s.clients && c != d && s.clients[c].Appending? && s.clients[d].Appending? ==>
          s.clients[c].subject != s.clients[d].subject)
  }

  /** A cut that is waiting to be replayed, or was replayed and waits to be filed, is closed; a replay made is exact. */
  ghost predicate ClientCutOk(cfg: Config, s: State, c: Client) {
    && ((c.CutRead? || c.Built?) ==> Closed(s, SubjectFor(cfg, c.task), c.cut))
    && (c.Built? ==> c.snapshot == Fold(Initial(c.task, c.cut), UpTo(StreamOf(s.streams, SubjectFor(cfg, c.task)), c.cut)))
  }

  ghost predicate CutsOk(cfg: Config, s: State) {
    && (forall c :: c in s.clients ==> ClientCutOk(cfg, s, s.clients[c]))
    && (forall k :: k in s.snapshots ==>
          Closed(s, SubjectFor(cfg, s.snapshots[k].taskId), s.snapshots[k].lastEventOffset))
  }

  ghost predicate Inv(cfg: Config, s: State) {
    StreamsOk(s) && TicketsOk(s) && CutsOk(cfg, s) && AllExact(cfg, s.streams, s.snapshots)
  }

  // ----- Each part of the invariant is kept -----

  lemma PushKeepsStreams(s: State, c: nat, cfg: Config)
    requires StreamsOk(s) && TicketsOk(s) && ClientOf(s, c).Appending?
    ensures StreamsOk(Step(cfg, s, c, Push))
  {
    var before := StreamOf(s.streams, s.clients[c].subject);
    assert Ordered(before);
    assert forall i :: 0 <= i < |before| ==> before[i].offset <= LastOffset(before);
  }

  lemma StepKeepsTickets(cfg: Config, s: State, c: nat, a: Action)
    requires StreamsOk(s) && TicketsOk(s) && Enabled(cfg, s, c, a)
    ensures TicketsOk(Step(cfg, s, c, a))
  {
    var t := Step(cfg, s, c, a);
    match a
    case TakeOffset(subject, event) =>
      assert t.clients[c].Appending? && t.clients[c].offset == s.nextOffset;
      assert LastOffset(StreamOf(s.streams, subject)) < s.nextOffset;
    case Push =>
      assert s.clients[c].Appending?;
    case ReadCut(task, cut) =>
    case Replay =>
    case File =>
    case Crash =>
  }

  /** A closed cut stays closed: the only appends that start later take offsets past the counter. */
  lemma ClosedStays(cfg: Config, s: State, c: nat, a: Action, subject: string, cut: nat)
    requires Enabled(cfg, s, c, a) && Closed(s, subject, cut)
    ensures Closed(Step(cfg, s, c, a), subject, cut)
  {
  }

  /** A replay up to a closed cut is unaffected by any step. */
  lemma CutReplayStays(cfg: Config, s: State, c: nat, a: Action, subject: string, cut: nat)
    requires Enabled(cfg, s, c, a) && Closed(s, subject, cut)
    ensures UpTo(StreamOf(Step(cfg, s, c, a).streams, subject), cut) == UpTo(StreamOf(s.streams, subject), cut)
  {
    if a.Push? && s.clients[c].subject == subject {
      var e := RecordedEvent(s.clients[c].offset, s.clients[c].event, subject);
      UpToPush(StreamOf(s.streams, subject), e, cut);
    }
  }

  lemma StepKeepsClientCut(cfg: Config, s: State, c: nat, a: Action, d: nat)
    requires Inv(cfg, s) && Enabled(cfg, s, c, a)
    requires d in Step(cfg, s, c, a).clients
    ensures ClientCutOk(cfg, Step(cfg, s, c, a), Step(cfg, s, c, a).clients[d])
  {
    var x := Step(cfg, s, c, a).clients[d];
    if d != c {
      assert ClientCutOk(cfg, s, s.clients[d]) && x == s.clients[d];
    } else if a.Replay? {
      assert ClientCutOk(cfg, s, s.clients[c]);
    }
    if x.CutRead? || x.Built? {
      ClosedStays(cfg, s, c, a, SubjectFor(cfg, x.task), x.cut);
      CutReplayStays(cfg, s, c, a, SubjectFor(cfg, x.task), x.cut);
    }
  }

  lemma StepKeepsSnapshots(cfg: Config, s: State, c: nat, a: Action)
    requires Inv(cfg, s) && Enabled(cfg, s, c, a)
    ensures AllExact(cfg, Step(cfg, s, c, a).streams, Step(cfg, s, c, a).snapshots)
  {
    if a.Push? {
      PushKeepsExact(cfg, s.streams, s.snapshots,
                     RecordedEvent(s.clients[c].offset, s.clients[c].event, s.clients[c].subject));
    } else if a.File? {
      assert ClientCutOk(cfg, s, s.clients[c]);
      InsertKeepsExact(cfg, s.streams, s.snapshots, s.clients[c].task, s.clients[c].cut, s.clients[c].snapshot);
    }
  }

  lemma StepKeepsCuts(cfg: Config, s: State, c: nat, a: Action)
    requires Inv(cfg, s) && Enabled(cfg, s, c, a)
    ensures CutsOk(cfg, Step(cfg, s, c, a))
  {
    var t := Step(cfg, s, c, a);
    forall d | d in t.clients ensures ClientCutOk(cfg, t, t.clients[d]) {
      StepKeepsClientCut(cfg, s, c, a, d);
    }
    forall k | k in t.snapshots
      ensures Closed(t, SubjectFor(cfg, t.snapshots[k].taskId), t.snapshots[k].lastEventOffset)
    {
      var snap := t.snapshots[k];
      if !(k in s.snapshots && s.snapshots[k] == snap) {
        assert ClientCutOk(cfg, s, s.clients[c]);
        InsertKeepsExact(cfg, s.streams, s.snapshots, s.clients[c].task, s.clients[c].cut, snap);
      }
      ClosedStays(cfg, s, c, a, SubjectFor(cfg, snap.taskId), snap.lastEventOffset);
    }
  }

  lemma StepKeepsInv(cfg: Config, s: State, c: nat, a: Action)
    requires Inv(cfg, s) && Enabled(cfg, s, c, a)
    ensures Inv(cfg, Step(cfg, s, c, a))
  {
    if a.Push? { PushKeepsStreams(s, c, cfg); }
    StepKeepsTickets(cfg, s, c, a);
    StepKeepsCuts(cfg, s, c, a);
    StepKeepsSnapshots(cfg, s, c, a);
  }

  lemma {:induction false} RunKeepsInv(cfg: Config, s: State, run: seq<(nat, Action)>, t: State)
    requires Inv(cfg, s) && Reaches(cfg, s, run, t)
    ensures Inv(cfg, t)
    decreases run
  {
    if run != [] {
      StepKeepsInv(cfg, s, run[0].0, run[0].1);
      RunKeepsInv(cfg, Step(cfg, s, run[0].0, run[0].1), run[1..], t);
    }
  }

  // ----- Recovery over every run -----

  /** A snapshot that was exact, and whose cut was closed, stays both along every run, stored or not. */
  lemma {:induction false} ExactStays(
    cfg: Config, s: State, run: seq<(nat, Action)>, t: State, key: string, snap: TaskSnapshot)
    requires Reaches(cfg, s, run, t)
    requires Closed(s, SubjectFor(cfg, snap.taskId), snap.lastEventOffset) && SnapshotExact(cfg, s.streams, key, snap)
    ensures SnapshotExact(cfg, t.streams, key, snap)
    decreases run
  {
    if run != [] {
      ClosedStays(cfg, s, run[0].0, run[0].1, SubjectFor(cfg, snap.taskId), snap.lastEventOffset);
      CutReplayStays(cfg, s, run[0].0, run[0].1, SubjectFor(cfg, snap.taskId), snap.lastEventOffset);
      ExactStays(cfg, Step(cfg, s, run[0].0, run[0].1), run[1..], t, key, snap);
    }
  }

  /**
  Recovery looks its snapshot up in one state of a run and reads the events after it in a later one. Whatever happens
  before and in between, and whichever of the latest snapshots the lookup returns, recovery of a task that was
  unshadowed at the lookup equals replaying its whole stream as it stands at the read.
  */
  lemma RecoveryIsReplayInEveryRun(cfg: Config, run: seq<(nat, Action)>, s: State, rest: seq<(nat, Action)>, t: State,
                                   task: string, latest: Option<TaskSnapshot>)
    requires Reaches(cfg, START, run, s) && Reaches(cfg, s, rest, t)
    requires Unshadowed(s.snapshots, task) && IsLatest(cfg, s.snapshots, task, latest)
    ensures SameTaskState(RecoverFrom(cfg, t.streams, task, latest), FullReplay(cfg, t.streams, task))
  {
    RunKeepsInv(cfg, START, run, s);
    RunKeepsInv(cfg, s, rest, t);
    match latest
    case None => RecoverFromScratchIsReplay(cfg, t.streams, task);
    case Some(snap) =>
      LatestIsOwn(cfg, s.streams, s.snapshots, task, latest);
      var k :| k in s.snapshots && Matches(cfg, k, task) && s.snapshots[k] == snap;
      ReadLater(cfg, s, rest, t, k);
  }

  lemma ReadLater(cfg: Config, s: State, rest: seq<(nat, Action)>, t: State, key: string)
    requires Inv(cfg, s) && Inv(cfg, t) && Reaches(cfg, s, rest, t) && key in s.snapshots
    ensures var snap := s.snapshots[key];
      SameTaskState(RecoverFrom(cfg, t.streams, snap.taskId, Some(snap)), FullReplay(cfg, t.streams, snap.taskId))
  {
    ExactStays(cfg, s, rest, t, key, s.snapshots[key]);
    RecoverIsReplay(cfg, t.streams, key, s.snapshots[key]);
  }

  // ----- Alone, a client does what the manager does -----

  predicate Shows(s: State, m: Recording) {
    s.streams == m.streams && s.snapshots == m.snapshots && s.nextOffset == m.nextOffset
  }

  lemma TwoSteps(cfg: Config, s: State, c: nat, a: Action, b: Action) returns (run: seq<(nat, Action)>, t: State)
    requires Enabled(cfg, s, c, a) && Enabled(cfg, Step(cfg, s, c, a), c, b)
    ensures Reaches(cfg, s, run, t) && t == Step(cfg, Step(cfg, s, c, a), c, b)
  {
    var m := Step(cfg, s, c, a);
    t := Step(cfg, m, c, b);
    run := [(c, a), (c, b)];
    assert Reaches(cfg, t, [], t);
    assert Reaches(cfg, m, run[1..], t) by { assert run[1..][1..] == []; }
  }

  /** An append by one client with nothing in between is the manager's append. */
  lemma SerialAppend(cfg: Config, s: State, m: Recording, c: nat, subject: string, event: AgentEvent)
    returns (run: seq<(nat, Action)>, t: State)
    requires Shows(s, m) && ClientOf(s, c).Idle? && Quiet(s, subject)
    ensures Reaches(cfg, s, run, t) && Shows(t, Pushed(m, subject, event)) && ClientOf(t, c).Idle?
    ensures forall x :: Quiet(s, x) ==> Quiet(t, x)
  {
    run, t := TwoSteps(cfg, s, c, TakeOffset(subject, event), Push);
  }

  lemma {:induction false} ReachesAppend(
    cfg: Config, s: State, a: seq<(nat, Action)>, m: State, b: seq<(nat, Action)>, t: State)
    requires Reaches(cfg, s, a, m) && Reaches(cfg, m, b, t)
    ensures Reaches(cfg, s, a + b, t)
    decreases a
  {
    if a == [] {
      assert a + b == b;
    } else {
      assert (a + b)[1..] == a[1..] + b;
      ReachesAppend(cfg, Step(cfg, s, a[0].0, a[0].1), a[1..], m, b, t);
    }
  }

  lemma SerialBuild(cfg: Config, s: State, c: nat, task: string, stream: seq<RecordedEvent>)
    returns (run: seq<(nat, Action)>, t: State)
    requires StreamsOk(s) && ClientOf(s, c).Idle? && Quiet(s, SubjectFor(cfg, task))
    requires stream == StreamOf(s.streams, SubjectFor(cfg, task))
    ensures Reaches(cfg, s, run, t)
    ensures
      var cut := LastOffset(stream);
      t == s.(clients := s.clients[c := Built(task, cut, Fold(Initial(task, cut), stream))])
  {
    var cut := LastOffset(stream);
    QuietIsClosed(cfg, s, c, task, cut);
    var k := s.(clients := s.clients[c := CutRead(task, cut)]);
    ReplayBuilds(cfg, k, c, task, stream);
    run, t := TwoSteps(cfg, s, c, ReadCut(task, cut), Replay);
    assert k.clients[c := t.clients[c]] == s.clients[c := t.clients[c]];
  }

  lemma QuietIsClosed(cfg: Config, s: State, c: nat, task: string, cut: nat)
    requires StreamsOk(s) && ClientOf(s, c).Idle? && Quiet(s, SubjectFor(cfg, task))
    requires cut == LastOffset(StreamOf(s.streams, SubjectFor(cfg, task)))
    ensures Enabled(cfg, s, c, ReadCut(task, cut))
    ensures Step(cfg, s, c, ReadCut(task, cut)) == s.(clients := s.clients[c := CutRead(task, cut)])
  {
  }

  lemma ReplayBuilds(cfg: Config, s: State, c: nat, task: string, stream: seq<RecordedEvent>)
    requires stream == StreamOf(s.streams, SubjectFor(cfg, task)) && Ordered(stream)
    requires ClientOf(s, c) == CutRead(task, LastOffset(stream))
    ensures
      var cut := LastOffset(stream);
      Step(cfg, s, c, Replay) == s.(clients := s.clients[c := Built(task, cut, Fold(Initial(task, cut), stream))])
  {
    AllUpToLast(stream);
  }

  lemma SerialFile(cfg: Config, s: State, c: nat) returns (run: seq<(nat, Action)>, t: State)
    requires ClientOf(s, c).Built?
    ensures Reaches(cfg, s, run, t)
    ensures
      var Built(task, cut, snapshot) := ClientOf(s, c);
      t == s.(snapshots := s.snapshots[SnapshotKey(cfg.snapshotPrefix, task, cut) := snapshot], clients := s.clients[c := Idle])
  {
    t := Step(cfg, s, c, File);
    run := [(c, File)];
    assert Reaches(cfg, t, [], t) && run[1..] == [];
  }

  /** A snapshot taken by one client at the stream's last offset, with its marker, is the manager's. */
  lemma SerialSnapshot(cfg: Config, s: State, m: Recording, c: nat, task: string)
    returns (run: seq<(nat, Action)>, t: State)
    requires Shows(s, m) && StreamsOk(s) && ClientOf(s, c).Idle? && Quiet(s, SubjectFor(cfg, task))
    ensures Reaches(cfg, s, run, t) && Shows(t, Checkpointed(cfg, m, task))
  {
    var subject := SubjectFor(cfg, task);
    var stream := StreamOf(m.streams, subject);
    var cut := LastOffset(stream);
    var id := SnapshotKey(cfg.snapshotPrefix, task, cut);
    var a, k := SerialBuild(cfg, s, c, task, stream);
    var b, n := SerialFile(cfg, k, c);
    var filed := m.(snapshots := m.snapshots[id := Fold(Initial(task, cut), stream)]);
    assert Shows(n, filed);
    var d;
    d, t := SerialAppend(cfg, n, filed, c, subject, CheckpointCreated(task, id, cut));
    run := a + (b + d);
    ReachesAppend(cfg, k, b, n, d, t);
    ReachesAppend(cfg, s, a, k, b + d, t);
  }

  // ----- Why appends to one subject must not overlap -----

  /**
  The events a recovery applies from a snapshot at `cut`: those the snapshot replayed, then those read after it.
  Once another event is pushed, they are the whole stream exactly when that event lies past the cut.
  */
  lemma PushAppliedIffPastCut(stream: seq<RecordedEvent>, cut: nat, e: RecordedEvent)
    requires Ordered(stream)
    ensures UpTo(stream, cut) + From(stream + [e], cut + 1) == stream + [e] <==> e.offset > cut
  {
    CutSplits(stream, cut);
    FromPush(stream, e, cut + 1);
    if e.offset > cut {
      assert UpTo(stream, cut) + (From(stream, cut + 1) + [e]) == stream + [e];
    } else {
      assert |UpTo(stream, cut) + From(stream + [e], cut + 1)| == |stream|;
    }
  }

  /**
  Two overlapping appends to one subject: the later offset is pushed and snapshotted first, then the earlier offset
  arrives below the cut. Recovery misses a pause that full replay sees.
  */
  lemma OverlappingAppendsLoseAnEvent(cfg: Config, task: string, early: RecordedEvent, late: RecordedEvent)
    requires early == RecordedEvent(1, TaskPaused(task), SubjectFor(cfg, task))
    requires late == RecordedEvent(2, TaskResumed(task), SubjectFor(cfg, task))
    ensures
      var snapshot := Fold(Initial(task, 2), [late]);
      var streams := map[SubjectFor(cfg, task) := [late, early]];
      && RecoverFrom(cfg, streams, task, Some(snapshot)).status == InProgress
      && FullReplay(cfg, streams, task).status == Paused
  {
    var stream := [late, early];
    var snapshot := Fold(Initial(task, 2), [late]);
    FoldPush(Initial(task, 2), [], late);
    assert [] + [late] == [late];
    NoneFrom(stream, 3);
    FoldFrame(Initial(task, 2), [late], 2);
    assert Fold(snapshot, []) == snapshot;
    var start := Initial(task, LastOffset(stream));
    FoldPush(start, [late], early);
    assert [late] + [early] == stream;
  }
}
