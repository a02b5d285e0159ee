/**
The two per-attempt audit trails: context manifests, one snapshot per compile, and decision records, where start
facts and a terminal verdict meet under one key.
*/
module AttemptLogs {
  import opened Prelude
  import opened Text
  import opened RS = RuntimeState
  import Pagination

  // ----- Keys and scopes -----

  function AttemptKey(task: string, subtask: string, attempt: nat): string {
    task + ":" + subtask + ":" + Decimal(attempt)
  }

  /** The prefix of one subtask's keys, or of a whole task's when no subtask is named. */
  function Scope(task: string, subtask: Option<string>): (r: string)
    ensures r != ""
  {
    if subtask.Some? && subtask.value != "" then task + ":" + subtask.value + ":" else task + ":"
  }

  /**
  The scope of a subtask holds a key exactly if the two ids together are the key's, or the key's go on after a colon.
  */
  lemma SubtaskScopeIff(task: string, sub: string, other: string, subtask: string, attempt: nat)
    requires sub != ""
    ensures Scope(task, Some(sub)) <= AttemptKey(other, subtask, attempt)
        <==> || task + ":" + sub == other + ":" + subtask
             || StartsWith(other + ":" + subtask, task + ":" + sub + ":")
  {
    DecimalHasNoColon(attempt);
    WordIsPrefixIff(task + ":" + sub, other + ":" + subtask, Decimal(attempt));
  }

  /**
  The scope of a task holds a key exactly if the tasks are the same, or the key's task goes on after a colon, or the
  task itself goes on past the key's task and what it adds starts the key's subtask in the same way.
  */
  lemma TaskScopeIff(task: string, other: string, subtask: string, attempt: nat)
    ensures Scope(task, None) <= AttemptKey(other, subtask, attempt)
        <==> || task == other
             || StartsWith(other, task + ":")
             || (StartsWith(task, other + ":") && (var more := task[|other| + 1..]; more == subtask || StartsWith(subtask, more + ":")))
  {
    DecimalHasNoColon(attempt);
    assert AttemptKey(other, subtask, attempt) == other + ":" + (subtask + ":" + Decimal(attempt));
    FirstWordIff(task, other, subtask + ":" + Decimal(attempt));
    if StartsWith(task, other + ":") {
      WordIsPrefixIff(task[|other| + 1..], subtask, Decimal(attempt));
    }
  }

  /** So among colon-free ids a scope holds exactly its own keys: `task-1` never swallows `task-10`. */
  lemma ScopeIsExact(task: string, sub: Option<string>, other: string, subtask: string, attempt: nat)
    requires ':' !in task && ':' !in other && ':' !in subtask && (sub.Some? ==> ':' !in sub.value)
    ensures Scope(task, sub) <= AttemptKey(other, subtask, attempt)
        <==> task == other && (sub == None || sub == Some("") || sub == Some(subtask))
  {
    ColonIsMissing(other, task);
    ColonIsMissing(task, other);
    if sub.Some? && sub.value != "" {
      SubtaskScopeIff(task, sub.value, other, subtask, attempt);
      SameWords(task, sub.value, other, subtask);
    } else {
      TaskScopeIff(task, other, subtask, attempt);
    }
  }

  lemma ColonIsMissing(s: string, word: string)
    requires ':' !in s
    ensures !StartsWith(s, word + ":")
  {
    assert (word + ":")[|word|] == ':';
  }

  /** Two colon-free words on each side: joined they agree, or one starts the other, only if they are the same. */
  lemma SameWords(a: string, b: string, c: string, d: string)
    requires ':' !in a && ':' !in b && ':' !in c && ':' !in d
    ensures a + ":" + b == c + ":" + d <==> a == c && b == d
    ensures !StartsWith(c + ":" + d, a + ":" + b + ":")
  {
    var x, y := a + ":" + b, c + ":" + d;
    assert x[|a|] == ':' && y[|c|] == ':' && x[..|a|] == a && y[..|c|] == c && x[|a| + 1..] == b && y[|c| + 1..] == d;
    assert forall i :: 0 <= i < |y| && i != |c| ==> y[i] != ':';
    assert (x + ":")[|x|] == ':' && (x + ":")[|a|] == ':';
  }

  /** Among colon-free ids, different attempts have different keys. */
  lemma AttemptKeysDiffer(task: string, subtask: string, attempt: nat, other: string, sub: string, n: nat)
    requires ':' !in task && ':' !in subtask && ':' !in other && ':' !in sub
    ensures AttemptKey(task, subtask, attempt) == AttemptKey(other, sub, n)
        <==> task == other && subtask == sub && attempt == n
  {
    var key := AttemptKey(task, subtask, attempt);
    ScopeIsExact(other, None, task, subtask, attempt);
    ScopeIsExact(other, None, other, sub, n);
    if key == AttemptKey(other, sub, n) {
      assert key[|task| + 1..] == subtask + ":" + Decimal(attempt);
      assert AttemptKey(other, sub, n)[|task| + 1..] == sub + ":" + Decimal(n);
      DecimalHasNoColon(attempt);
      DecimalHasNoColon(n);
      SameWords(subtask, Decimal(attempt), sub, Decimal(n));
      DecimalReadsBack(attempt);
      DecimalReadsBack(n);
    }
  }

  // ----- Context manifests -----

  datatype ManifestRecord = NoManifest | Manifest(summary: string, recordedAt: real)

  function ManifestStamp(r: ManifestRecord): real {
    if r.Manifest? then r.recordedAt else 0.0
  }

  /** A repeat of the same summary keeps the record; a different one replaces it and takes the new time. */
  function ManifestChange(was: ManifestRecord, summary: string, now: real): ManifestRecord {
    if was.Manifest? && was.summary == summary then was else Manifest(summary, now)
  }

  /** One attempt's record after a sequence of compiles. */
  function Compiled(compiles: seq<(string, real)>): ManifestRecord {
    if compiles == [] then NoManifest
    else
      var last := compiles[|compiles| - 1];
      ManifestChange(Compiled(compiles[..|compiles| - 1]), last.0, last.1)
  }

  /** The k-th compile opened the run of equal summaries that ends the list. */
  ghost predicate OpensLastSummary(compiles: seq<(string, real)>, k: int) {
    && 0 <= k < |compiles|
    && (forall j :: k <= j < |compiles| ==> compiles[j].0 == compiles[k].0)
    && (k > 0 ==> compiles[k - 1].0 != compiles[k].0)
  }

  /** The record holds the last summary, with the time at which the last unbroken run of it began. */
  lemma {:induction false} ManifestIsTheLast(compiles: seq<(string, real)>)
    requires compiles != []
    ensures exists k :: OpensLastSummary(compiles, k) && Compiled(compiles) == Manifest(compiles[k].0, compiles[k].1)
  {
    var init, last := compiles[..|compiles| - 1], compiles[|compiles| - 1];
    if init == [] {
      assert Compiled(init) == NoManifest && OpensLastSummary(compiles, 0);
    } else {
      ManifestIsTheLast(init);
      var k :| OpensLastSummary(init, k) && Compiled(init) == Manifest(init[k].0, init[k].1);
      assert init[|init| - 1].0 == init[k].0 && init[k] == compiles[k];
      if init[k].0 == last.0 {
        assert OpensLastSummary(compiles, k);
      } else {
        assert OpensLastSummary(compiles, |init|);
      }
    }
  }

  class ContextManifestOutbox {
    const state: RuntimeState<ManifestRecord>

    constructor (state: RuntimeState<ManifestRecord>)
      ensures this.state == state
    {
      this.state := state;
    }

    method Record(key: string, summary: string, now: real) returns (record: ManifestRecord)
      requires state.Valid()
      modifies state
      ensures state.Valid() && record == ManifestChange(old(state.Get(key)), summary, now)
      ensures state.Data() == old(state.Data())[key := record]
    {
      var change: ManifestRecord -> Result<ManifestRecord, ()> := r => Ok(ManifestChange(r, summary, now));
      var res := state.Mutate(key, change, None, now);
      record := res.value;
    }

    /** One page of the compiles in scope, newest first. */
    method Recent(task: string, subtask: Option<string>, scanPage: int, limit: int, before: Option<string>)
      returns (res: Result<seq<(string, ManifestRecord)>, Pagination.PageError>)
      requires state.Valid() && 1 <= scanPage <= 1000
      ensures res.Err? <==>
        || !(1 <= limit <= 1000) || before == Some("")
        || (before.Some? && !(before.value in state.rows && Scope(task, subtask) <= before.value))
      ensures res.Ok? ==> Pagination.ServesNewest(state.rows, Scope(task, subtask), ManifestStamp, limit, before, res.value)
      ensures res.Ok? ==> forall i, j ::
        0 <= i < j < |res.value| && res.value[i].1.Manifest? && res.value[j].1.Manifest? ==>
          res.value[i].1.recordedAt >= res.value[j].1.recordedAt
      ensures
        match Pagination.RecentKeys(Pagination.TimesOf(state.rows, Scope(task, subtask), ManifestStamp), limit, before)
        case Err(e) => res == Err(e)
        case Ok(keys) => (forall k :: k in keys ==> k in state.rows) && res == Ok(Fetch(state.rows, keys))
    {
      res := Pagination.Recent(state, ManifestStamp, Scope(task, subtask), scanPage, limit, before);
    }
  }

  // ----- Decision records -----

  datatype StartFacts = StartFacts(
    workerId: string,
    route: Option<string>,
    contextDigest: Option<string>,
    contextKey: Option<string>,
    governance: Option<string>)

  datatype Verdict = Verdict(
    success: bool,
    summary: Option<string>,
    errorClass: Option<string>,
    oracle: Option<string>,
    review: Option<string>)

  datatype Decision = Decision(
    start: Option<StartFacts>,
    recordedAt: Option<real>,
    terminal: Option<Verdict>,
    terminalAt: Option<real>)

  function DecisionStamp(d: Decision): real {
    if d.recordedAt.Some? then d.recordedAt.value else 0.0
  }

  const NO_DECISION := Decision(None, None, None, None)

  datatype Write = Start(facts: StartFacts, at: real) | Terminal(verdict: Verdict, at: real)

  /** Start facts replace start facts and keep any verdict; a verdict replaces the verdict and keeps the start facts. */
  function DecisionChange(was: Decision, w: Write): Decision {
    match w
    case Start(facts, now) =>
      if was.start == Some(facts) then was
      else Decision(Some(facts), Some(now), was.terminal, was.terminalAt)
    case Terminal(verdict, now) => was.(terminal := Some(verdict), terminalAt := Some(now))
  }

  class DecisionRecordOutbox {
    const state: RuntimeState<Decision>

    constructor (state: RuntimeState<Decision>)
      ensures this.state == state
    {
      this.state := state;
    }

    method RecordStart(key: string, facts: StartFacts, now: real) returns (record: Decision)
      requires state.Valid()
      modifies state
      ensures state.Valid() && record == DecisionChange(old(state.Get(key)), Start(facts, now))
      ensures state.Data() == old(state.Data())[key := record]
    {
      var change: Decision -> Result<Decision, ()> := d => Ok(DecisionChange(d, Start(facts, now)));
      var res := state.Mutate(key, change, None, now);
      record := res.value;
    }

    method RecordTerminal(key: string, verdict: Verdict, now: real) returns (record: Decision)
      requires state.Valid()
      modifies state
      ensures state.Valid() && record == DecisionChange(old(state.Get(key)), Terminal(verdict, now))
      ensures state.Data() == old(state.Data())[key := record]
    {
      var change: Decision -> Result<Decision, ()> := d => Ok(DecisionChange(d, Terminal(verdict, now)));
      var res := state.Mutate(key, change, None, now);
      record := res.value;
    }

    /** One page of the decisions in scope, newest start first; a decision without a start counts as oldest. */
    method Recent(task: string, subtask: Option<string>, scanPage: int, limit: int, before: Option<string>)
      returns (res: Result<seq<(string, Decision)>, Pagination.PageError>)
      requires state.Valid() && 1 <= scanPage <= 1000
      ensures res.Err? <==>
        || !(1 <= limit <= 1000) || before == Some("")
        || (before.Some? && !(before.value in state.rows && Scope(task, subtask) <= before.value))
      ensures res.Ok? ==> Pagination.ServesNewest(state.rows, Scope(task, subtask), DecisionStamp, limit, before, res.value)
      ensures res.Ok? ==> forall i, j :: 0 <= i < j < |res.value| ==>
        var a, b := res.value[i].1.recordedAt, res.value[j].1.recordedAt;
        (if a.Some? then a.value else 0.0) >= (if b.Some? then b.value else 0.0)
      ensures
        match Pagination.RecentKeys(Pagination.TimesOf(state.rows, Scope(task, subtask), DecisionStamp), limit, before)
        case Err(e) => res == Err(e)
        case Ok(keys) => (forall k :: k in keys ==> k in state.rows) && res == Ok(Fetch(state.rows, keys))
    {
      res := Pagination.Recent(state, DecisionStamp, Scope(task, subtask), scanPage, limit, before);
    }
  }

  function Joined(writes: seq<Write>): Decision {
    if writes == [] then NO_DECISION
    else DecisionChange(Joined(writes[..|writes| - 1]), writes[|writes| - 1])
  }

  /** The start writes alone, in order. */
  function Starts(writes: seq<Write>): seq<Write> {
    if writes == [] then []
    else
      var w := writes[|writes| - 1];
      Starts(writes[..|writes| - 1]) + (if w.Start? then [w] else [])
  }

  function Terminals(writes: seq<Write>): seq<Write> {
    if writes == [] then []
    else
      var w := writes[|writes| - 1];
      Terminals(writes[..|writes| - 1]) + (if w.Terminal? then [w] else [])
  }

  /** The k-th start opened the run of equal facts that ends the list. */
  ghost predicate OpensLastRun(starts: seq<Write>, k: int) {
    && 0 <= k < |starts|
    && (forall j :: 0 <= j < |starts| ==> starts[j].Start?)
    && (forall j :: k <= j < |starts| ==> starts[j].facts == starts[k].facts)
    && (k > 0 ==> starts[k - 1].facts != starts[k].facts)
  }

  ghost predicate StartJoined(starts: seq<Write>, d: Decision) {
    if starts == [] then d.start.None? && d.recordedAt.None?
    else exists k :: OpensLastRun(starts, k) && d.start == Some(starts[k].facts) && d.recordedAt == Some(starts[k].at)
  }

  ghost predicate TerminalJoined(terminals: seq<Write>, d: Decision) {
    if terminals == [] then d.terminal.None? && d.terminalAt.None?
    else
      var w := terminals[|terminals| - 1];
      w.Terminal? && d.terminal == Some(w.verdict) && d.terminalAt == Some(w.at)
  }

  /**
  Whatever the order of start and terminal writes, the joined record holds the last start facts, stamped when that
  content first appeared, and the last verdict with its own time. Neither kind of write ever erases the other.
  */
  lemma {:induction false} JoinHoldsBothHalves(writes: seq<Write>)
    ensures StartJoined(Starts(writes), Joined(writes))
    ensures TerminalJoined(Terminals(writes), Joined(writes))
  {
    if writes != [] {
      var init, w := writes[..|writes| - 1], writes[|writes| - 1];
      JoinHoldsBothHalves(init);
      if w.Start? {
        StartStep(Starts(init), Joined(init), w);
      } else {
        assert Starts(writes) == Starts(init);
      }
    }
  }

  lemma StartStep(starts: seq<Write>, d: Decision, w: Write)
    requires w.Start? && StartJoined(starts, d)
    ensures StartJoined(starts + [w], DecisionChange(d, w))
  {
    var after := starts + [w];
    if starts == [] || d.start != Some(w.facts) {
      if starts != [] {
        var k :| OpensLastRun(starts, k) && d.start == Some(starts[k].facts);
        assert after[|starts| - 1].facts == starts[k].facts;
      }
      assert OpensLastRun(after, |starts|);
    } else {
      var k :| OpensLastRun(starts, k) && d.start == Some(starts[k].facts) && d.recordedAt == Some(starts[k].at);
      assert OpensLastRun(after, k);
    }
  }
}
