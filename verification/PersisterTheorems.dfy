/** The persister over whole runs: conservation, exactly-once storage, and what drains the journal. */
module PersisterTheorems {
  import opened Common
  import opened IngestModel
  import opened IngestProperties
  import opened Persister
  import opened PersisterProofs

  // ---------------------------------------------------------------- conservation

  ghost predicate Crashless(events: seq<Event>) {
    Crash !in events
  }

  /**
   In every reachable state each accepted batch is in exactly one place, and the
   channel never exceeds its depth.
   */
  lemma Conservation(c: Config, events: seq<Event>, s: Sys)
    requires Faithful(c) && Execute(c, Fresh(), events) == Some(s)
    ensures |s.fate| == |s.accepted| && |s.channel| <= c.depth
    ensures DistinctIds(s.channel) && DistinctDisk(s.disk.queued)
    ensures forall id :: 0 <= id < |s.fate| ==>
              && (s.fate[id] == Queued <==> id in Ids(s.channel))
              && (s.fate[id] == InProcess <==> InHand(s.phase).Some? && InHand(s.phase).value.id == id)
              && (s.fate[id] == Journaled <==> id in DiskIds(s.disk.queued))
  {
    FreshInv(c);
    RunInv(c, Fresh(), events, s);
    forall id | 0 <= id < |s.fate|
      ensures s.fate[id] == Queued <==> id in Ids(s.channel)
      ensures s.fate[id] == InProcess <==> InHand(s.phase).Some? && InHand(s.phase).value.id == id
      ensures s.fate[id] == Journaled <==> id in DiskIds(s.disk.queued)
    {
      assert PlaceAgrees(s, id);
    }
  }

  lemma {:induction false} NothingLostWithoutCrash(c: Config, s: Sys, events: seq<Event>, s': Sys)
    requires Execute(c, s, events) == Some(s') && Crashless(events) && LostCrash !in s.fate
    ensures LostCrash !in s'.fate
    decreases |events|
  {
    if events != [] {
      assert events[0] in events && forall e <- events[1..] :: e in events;
      StepLosesNothing(c, s, events[0]);
      NothingLostWithoutCrash(c, After(c, s, events[0]), events[1..], s');
    }
  }

  lemma StepLosesNothing(c: Config, s: Sys, e: Event)
    requires CanStep(c, s, e) && e != Crash && LostCrash !in s.fate
    ensures LostCrash !in After(c, s, e).fate
  {
  }

  /** A graceful shutdown drains: without a crash, an exited persister leaves every batch stored, journaled, refused or reported lost. */
  lemma GracefulShutdown(c: Config, events: seq<Event>, s: Sys)
    requires Faithful(c) && Execute(c, Fresh(), events) == Some(s) && Crashless(events) && s.phase.Exited?
    ensures forall f <- s.fate :: f == Journaled || f == Persisted || f == Rejected || f == LostAppend
  {
    FreshInv(c);
    RunInv(c, Fresh(), events, s);
    NothingLostWithoutCrash(c, Fresh(), events, s);
    forall id | 0 <= id < |s.fate| ensures s.fate[id] != Queued && s.fate[id] != InProcess && s.fate[id] != LostCrash {
      assert PlaceAgrees(s, id);
      assert Ids(s.channel) == {};
      assert s.fate[id] in s.fate;
    }
  }

  // ---------------------------------------------------------------- exactly once

  ghost predicate IsLost(f: Fate) {
    f == LostAppend || f == LostCrash
  }

  ghost predicate Drained(s: Sys) {
    s.disk.queued.Keys == {} && s.channel == [] && InHand(s.phase).None?
  }

  /** The batches whose rows the store must hold: the persisted ones and the lost ones that had already landed. */
  ghost predicate Counts(s: Sys, id: nat)
    requires |s.fate| == |s.accepted| && id < |s.fate|
  {
    s.fate[id] == Persisted || (IsLost(s.fate[id]) && Job(id, s.accepted[id]) in s.landed)
  }

  /**
   Whatever failed, crashed or restarted on the way: once nothing is queued, in hand or
   journaled, every accepted batch is persisted, refused or lost, and the stored event
   keys are exactly those of the batches that count, each key once.
   */
  lemma ExactlyOnce(c: Config, events: seq<Event>, s: Sys)
    requires Faithful(c) && Execute(c, Fresh(), events) == Some(s) && Drained(s)
    ensures |s.fate| == |s.accepted|
    ensures forall f <- s.fate :: f == Persisted || f == Rejected || IsLost(f)
    ensures forall k :: k in s.db.events <==> exists id :: 0 <= id < |s.fate| && Counts(s, id) && k in c.keys(s.accepted[id])
  {
    FreshInv(c);
    RunInv(c, Fresh(), events, s);
    forall id | 0 <= id < |s.fate| ensures s.fate[id] == Persisted || s.fate[id] == Rejected || IsLost(s.fate[id]) {
      assert PlaceAgrees(s, id);
      assert Ids(s.channel) == {} && DiskIds(s.disk.queued) == {};
    }
    forall k ensures k in s.db.events <==> exists id :: 0 <= id < |s.fate| && Counts(s, id) && k in c.keys(s.accepted[id]) {
      if k in s.db.events {
        assert k in LandedKeys(c, s.landed);
        var j :| j in s.landed && k in c.keys(j.bytes);
        assert Known(s, j) && CanLand(s.fate[j.id]);
        assert Job(j.id, s.accepted[j.id]) == j;
        assert Counts(s, j.id);
      }
      if id :| 0 <= id < |s.fate| && Counts(s, id) && k in c.keys(s.accepted[id]) {
        var j := Job(id, s.accepted[id]);
        assert j in s.landed;
        assert k in LandedKeys(c, s.landed);
      }
    }
  }

  // ---------------------------------------------------------------- strays: lost, yet landed

  ghost predicate IsStray(s: Sys, j: Job) {
    j in s.landed && j.id < |s.fate| && IsLost(s.fate[j.id])
  }

  /** The one kind of step that makes a stray: the batch in hand, its events committed, is lost to a crash or a failed append. */
  ghost predicate StrayStep(s: Sys, e: Event) {
    (e == Crash || e == AppendEntry(false)) && InHand(s.phase).Some? && InHand(s.phase).value in s.landed
  }

  ghost predicate HasStrayStep(c: Config, s: Sys, events: seq<Event>)
    decreases |events|
  {
    events != [] && CanStep(c, s, events[0]) && (StrayStep(s, events[0]) || HasStrayStep(c, After(c, s, events[0]), events[1..]))
  }

  /** Whose fate a step may change: the batch taken, the batch in hand, or what a crash takes. */
  lemma FateMoves(c: Config, s: Sys, e: Event, id: nat)
    requires CanStep(c, s, e) && id < |s.fate|
    ensures id < |After(c, s, e).fate|
    ensures || After(c, s, e).fate[id] == s.fate[id]
            || (e == Take && s.channel[0].id == id)
            || ((s.phase.Working? || s.phase.Purging? || s.phase.Journaling?) && s.phase.job.id == id && e != Crash)
            || (e == Crash && (s.fate[id] == Queued || s.fate[id] == InProcess))
  {
  }

  ghost predicate IsFinal(f: Fate) {
    f == Persisted || f == Rejected || IsLost(f)
  }

  /** A final fate is final. */
  lemma FinalStays(c: Config, s: Sys, e: Event, id: nat)
    requires Inv(c, s) && CanStep(c, s, e) && id < |s.fate| && IsFinal(s.fate[id])
    ensures id < |After(c, s, e).fate| && After(c, s, e).fate[id] == s.fate[id]
  {
    FateMoves(c, s, e, id);
    assert PlaceAgrees(s, id);
    if e == Take {
      assert s.channel[0] in s.channel && s.channel[0].id in Ids(s.channel);
    }
    if (s.phase.Working? && s.phase.source.FromJournal?) || s.phase.Purging? {
      JournaledFate(s);
    }
  }

  /** The batch a replay holds is a journaled one. */
  lemma JournaledFate(s: Sys)
    requires Booked(s) && PhasePoints(s) && ((s.phase.Working? && s.phase.source.FromJournal?) || s.phase.Purging?)
    ensures s.phase.job.id < |s.fate| && s.fate[s.phase.job.id] == Journaled
  {
    var at := if s.phase.Purging? then s.phase.at else s.phase.source.at;
    assert s.disk.queued[at].id in DiskIds(s.disk.queued) && PlaceAgrees(s, s.phase.job.id);
  }

  /** What landed stays landed, and a step lands at most the batch it inserts. */
  lemma LandedStep(c: Config, s: Sys, e: Event)
    requires CanStep(c, s, e)
    ensures After(c, s, e).landed == if e == InsertEvents(true) then s.landed + {s.phase.job} else s.landed
  {
  }

  lemma StepKeepsStrays(c: Config, s: Sys, e: Event, j: Job)
    requires Inv(c, s) && CanStep(c, s, e) && IsStray(s, j)
    ensures IsStray(After(c, s, e), j)
  {
    LandedStep(c, s, e);
    FinalStays(c, s, e, j.id);
  }

  lemma StrayStepMakesOne(c: Config, s: Sys, e: Event)
    requires Inv(c, s) && CanStep(c, s, e) && StrayStep(s, e)
    ensures IsStray(After(c, s, e), InHand(s.phase).value)
  {
    var j := InHand(s.phase).value;
    assert Known(s, j) && PlaceAgrees(s, j.id);
  }

  /** How a batch comes to be lost. */
  lemma LossStep(c: Config, s: Sys, e: Event, id: nat)
    requires CanStep(c, s, e) && id < |s.fate| && IsLost(After(c, s, e).fate[id]) && !IsLost(s.fate[id])
    ensures (e == AppendEntry(false) && s.phase.job.id == id) || (e == Crash && (s.fate[id] == Queued || s.fate[id] == InProcess))
  {
  }

  /** No other step makes a stray. */
  lemma OtherStepsMakeNone(c: Config, s: Sys, e: Event, j: Job)
    requires Inv(c, s) && CanStep(c, s, e) && !StrayStep(s, e) && IsStray(After(c, s, e), j)
    ensures IsStray(s, j)
  {
    LandedStep(c, s, e);
    if e == InsertEvents(true) && j == s.phase.job {
      WorkingFate(c, s);
      FateMoves(c, s, e, j.id);
    }
    assert Known(s, j) && PlaceAgrees(s, j.id) && CanLand(s.fate[j.id]);
    if !IsLost(s.fate[j.id]) {
      LossStep(c, s, e, j.id);
    }
  }

  /** A reachable state holds a stray exactly when its run took such a step. */
  lemma {:induction false} StraysFollowSteps(c: Config, s: Sys, events: seq<Event>, s': Sys)
    requires Faithful(c) && Inv(c, s) && Execute(c, s, events) == Some(s')
    ensures (exists j :: IsStray(s', j)) <==> (exists j :: IsStray(s, j)) || HasStrayStep(c, s, events)
    decreases |events|
  {
    if events != [] {
      var e, m := events[0], After(c, s, events[0]);
      StepInv(c, s, e);
      StraysFollowSteps(c, m, events[1..], s');
      if j :| IsStray(s, j) {
        StepKeepsStrays(c, s, e, j);
      }
      if StrayStep(s, e) {
        StrayStepMakesOne(c, s, e);
      } else if j :| IsStray(m, j) {
        OtherStepsMakeNone(c, s, e, j);
      }
    }
  }

  ghost function PersistedKeys(c: Config, s: Sys): set<EventKey>
    requires |s.fate| == |s.accepted|
  {
    set id, k | 0 <= id < |s.fate| && s.fate[id] == Persisted && k in c.keys(s.accepted[id]) :: k
  }

  /**
   Once drained, the batches whose events are stored are exactly the persisted ones if and
   only if no batch was lost, to a crash or a failed journal append, after its events had
   committed; and then the stored keys are exactly the persisted batches' keys.
   */
  lemma ExactIffNoStrayStep(c: Config, events: seq<Event>, s: Sys)
    requires Faithful(c) && Execute(c, Fresh(), events) == Some(s) && Drained(s)
    ensures |s.fate| == |s.accepted|
    ensures (forall j <- s.landed :: j.id < |s.fate| && s.fate[j.id] == Persisted) <==> !HasStrayStep(c, Fresh(), events)
    ensures !HasStrayStep(c, Fresh(), events) ==> s.db.events.Keys == PersistedKeys(c, s)
  {
    FreshInv(c);
    RunInv(c, Fresh(), events, s);
    StraysFollowSteps(c, Fresh(), events, s);
    ExactlyOnce(c, events, s);
    forall j <- s.landed ensures j.id < |s.fate| && (s.fate[j.id] == Persisted || IsStray(s, j)) {
      assert Known(s, j) && CanLand(s.fate[j.id]) && s.fate[j.id] in s.fate;
    }
    if !HasStrayStep(c, Fresh(), events) {
      assert forall id :: 0 <= id < |s.fate| && Counts(s, id) ==> s.fate[id] == Persisted by {
        assert forall id :: 0 <= id < |s.fate| && Counts(s, id) && s.fate[id] != Persisted ==> IsStray(s, Job(id, s.accepted[id]));
      }
      forall k <- PersistedKeys(c, s) ensures k in s.db.events {
        var id :| 0 <= id < |s.fate| && s.fate[id] == Persisted && k in c.keys(s.accepted[id]);
        assert Counts(s, id);
      }
    }
  }

  // ---------------------------------------------------------------- why a batch was refused

  /** Some attempt of this run failed on the batch with an error that is not the store's. */
  ghost predicate HadCause(c: Config, s: Sys, b: Bytes) {
    exists n: nat :: n < s.attempts && c.plan(n, b).Err? && c.plan(n, b).error != IngestError.Store
  }

  ghost predicate RejectedHadCause(c: Config, s: Sys) {
    |s.fate| == |s.accepted| && forall id :: 0 <= id < |s.fate| && s.fate[id] == Rejected ==> HadCause(c, s, s.accepted[id])
  }

  lemma RejectStep(c: Config, s: Sys, e: Event, id: nat)
    requires CanStep(c, s, e) && id < |s.fate| && s.fate[id] != Rejected
    requires id < |After(c, s, e).fate| && After(c, s, e).fate[id] == Rejected
    ensures e == Decide && s.phase.Working? && s.phase.job.id == id && After(c, s, e).attempts == s.attempts + 1
    ensures c.plan(s.attempts, s.phase.job.bytes).Err? && c.plan(s.attempts, s.phase.job.bytes).error != IngestError.Store
  {
  }

  lemma RejectCause(c: Config, s: Sys, e: Event, id: nat)
    requires Inv(c, s) && CanStep(c, s, e) && id < |s.fate| && s.fate[id] != Rejected
    requires id < |After(c, s, e).fate| && After(c, s, e).fate[id] == Rejected
    ensures HadCause(c, After(c, s, e), s.accepted[id])
  {
    RejectStep(c, s, e, id);
    assert Known(s, s.phase.job);
  }

  lemma CauseStays(c: Config, s: Sys, e: Event, b: Bytes)
    requires CanStep(c, s, e) && HadCause(c, s, b)
    ensures HadCause(c, After(c, s, e), b)
  {
    AttemptsStep(c, s, e);
    var n: nat :| n < s.attempts && c.plan(n, b).Err? && c.plan(n, b).error != IngestError.Store;
    assert n < After(c, s, e).attempts;
  }

  lemma StepRejects(c: Config, s: Sys, e: Event)
    requires Faithful(c) && Inv(c, s) && CanStep(c, s, e) && RejectedHadCause(c, s)
    ensures RejectedHadCause(c, After(c, s, e))
  {
    StepInv(c, s, e);
    var s' := After(c, s, e);
    forall id | 0 <= id < |s'.fate| && s'.fate[id] == Rejected ensures HadCause(c, s', s'.accepted[id]) {
      FateGrows(c, s, e);
      if id < |s.fate| {
        if s.fate[id] == Rejected {
          CauseStays(c, s, e, s.accepted[id]);
        } else {
          RejectCause(c, s, e, id);
        }
      }
    }
  }

  lemma FateGrows(c: Config, s: Sys, e: Event)
    requires CanStep(c, s, e)
    ensures s.accepted <= After(c, s, e).accepted && |s.fate| <= |After(c, s, e).fate|
    ensures forall id :: |s.fate| <= id < |After(c, s, e).fate| ==> After(c, s, e).fate[id] == Queued
  {
  }

  /** Over every run, a refused batch was refused by an attempt: no outage of the store ever drops one. */
  lemma {:induction false} RefusedForCause(c: Config, s: Sys, events: seq<Event>, s': Sys)
    requires Faithful(c) && Inv(c, s) && RejectedHadCause(c, s) && Execute(c, s, events) == Some(s')
    ensures RejectedHadCause(c, s')
    decreases |events|
  {
    if events != [] {
      StepInv(c, s, events[0]);
      StepRejects(c, s, events[0]);
      RefusedForCause(c, After(c, s, events[0]), events[1..], s');
    }
  }

  // ---------------------------------------------------------------- what the journal promises

  /** A journaled batch leaves the journal by its purge after a success, and in no other way. */
  lemma JournaledStep(c: Config, s: Sys, e: Event, id: nat)
    requires Inv(c, s) && CanStep(c, s, e) && id < |s.fate| && s.fate[id] == Journaled
    ensures id < |After(c, s, e).fate|
    ensures After(c, s, e).fate[id] == if e == PurgeEntry(true) && s.phase.job.id == id then Persisted else Journaled
  {
    FateMoves(c, s, e, id);
    assert PlaceAgrees(s, id);
    if e == Take {
      assert s.channel[0] in s.channel && s.channel[0].id in Ids(s.channel);
    }
  }

  /** Over every run, a batch once journaled is journaled or persisted ever after: never lost, never refused. */
  lemma {:induction false} JournaledIsKept(c: Config, s: Sys, events: seq<Event>, s': Sys, id: nat)
    requires Faithful(c) && Inv(c, s) && Execute(c, s, events) == Some(s')
    requires id < |s.fate| && (s.fate[id] == Journaled || s.fate[id] == Persisted)
    ensures id < |s'.fate| && (s'.fate[id] == Journaled || s'.fate[id] == Persisted)
    decreases |events|
  {
    if events != [] {
      StepInv(c, s, events[0]);
      if s.fate[id] == Journaled {
        JournaledStep(c, s, events[0], id);
      } else {
        FinalStays(c, s, events[0], id);
      }
      JournaledIsKept(c, After(c, s, events[0]), events[1..], s', id);
    }
  }

  /** In every reachable state, drained or not, a persisted batch has all its event keys and its LLM rows stored. */
  lemma PersistedIsStored(c: Config, events: seq<Event>, s: Sys, id: nat)
    requires Faithful(c) && Execute(c, Fresh(), events) == Some(s) && id < |s.fate| && s.fate[id] == Persisted
    ensures id < |s.accepted| && c.keys(s.accepted[id]) <= s.db.events.Keys
    ensures forall row <- c.llm(s.accepted[id]) :: row in s.db.llmCalls
  {
    FreshInv(c);
    RunInv(c, Fresh(), events, s);
    var j := Job(id, s.accepted[id]);
    assert j in s.llmLog && j in s.landed;
    forall k <- c.keys(j.bytes) ensures k in s.db.events {
      assert k in LandedKeys(c, s.landed);
    }
    LlmOfHas(c, s.llmLog, j);
  }

  lemma {:induction false} LlmOfHas(c: Config, log: seq<Job>, j: Job)
    requires j in log
    ensures forall row <- c.llm(j.bytes) :: row in LlmOf(c, log)
    decreases |log|
  {
    if log[|log| - 1] != j {
      LlmOfHas(c, log[..|log| - 1], j);
    }
  }

  // ---------------------------------------------------------------- LLM rows

  ghost predicate NoRepeats(log: seq<Job>) {
    forall i, j :: 0 <= i < j < |log| ==> log[i] != log[j]
  }

  /** The steps after which a batch whose LLM rows are stored may be replayed: a purge that fails, or a crash before it. */
  ghost predicate UnpurgedStep(s: Sys, e: Event) {
    s.phase.Purging? && (e == Crash || e == PurgeEntry(false))
  }

  ghost predicate HasUnpurgedStep(c: Config, s: Sys, events: seq<Event>)
    decreases |events|
  {
    events != [] && CanStep(c, s, events[0]) && (UnpurgedStep(s, events[0]) || HasUnpurgedStep(c, After(c, s, events[0]), events[1..]))
  }

  /** Each batch in the LLM log is there once, and is persisted or about to be purged. */
  ghost predicate LoggedOnce(s: Sys) {
    NoRepeats(s.llmLog) && forall j <- s.llmLog :: LogSettled(s, j)
  }

  ghost predicate LogSettled(s: Sys, j: Job) {
    (j.id < |s.fate| && s.fate[j.id] == Persisted) || (s.phase.Purging? && s.phase.job == j)
  }

  lemma StepLoggedOnce(c: Config, s: Sys, e: Event)
    requires Inv(c, s) && LoggedOnce(s) && CanStep(c, s, e) && !UnpurgedStep(s, e)
    ensures LoggedOnce(After(c, s, e))
  {
    match e
    case InsertLlm(_) => InsertLogsOnce(c, s, e);
    case PurgeEntry(_) => JournaledFate(s);
    case _ => LogStays(c, s, e);
  }

  lemma InsertLogsOnce(c: Config, s: Sys, e: Event)
    requires Inv(c, s) && LoggedOnce(s) && e.InsertLlm? && CanStep(c, s, e)
    ensures LoggedOnce(After(c, s, e))
  {
    WorkingFate(c, s);
    assert s.phase.job !in s.llmLog;
    var s' := After(c, s, e);
    forall j <- s'.llmLog ensures LogSettled(s', j) {
      assert j in s.llmLog || j == s.phase.job;
      assert j in s.llmLog ==> LogSettled(s, j);
    }
  }

  lemma LogStays(c: Config, s: Sys, e: Event)
    requires Inv(c, s) && LoggedOnce(s) && CanStep(c, s, e) && !UnpurgedStep(s, e) && !e.InsertLlm? && !e.PurgeEntry?
    ensures LoggedOnce(After(c, s, e))
  {
    var s' := After(c, s, e);
    LogStep(c, s, e);
    forall j <- s.llmLog ensures LogSettled(s', j) {
      assert LogSettled(s, j);
      if !s.phase.Purging? || s.phase.job != j {
        FinalStays(c, s, e, j.id);
      }
    }
  }

  lemma LogStep(c: Config, s: Sys, e: Event)
    requires CanStep(c, s, e) && !UnpurgedStep(s, e) && !e.InsertLlm? && !e.PurgeEntry?
    ensures After(c, s, e).llmLog == s.llmLog && (s.phase.Purging? ==> After(c, s, e).phase == s.phase)
  {
  }

  lemma {:induction false} RunLoggedOnce(c: Config, s: Sys, events: seq<Event>, s': Sys)
    requires Faithful(c) && Inv(c, s) && LoggedOnce(s) && Execute(c, s, events) == Some(s') && !HasUnpurgedStep(c, s, events)
    ensures LoggedOnce(s')
    decreases |events|
  {
    if events != [] {
      StepInv(c, s, events[0]);
      StepLoggedOnce(c, s, events[0]);
      RunLoggedOnce(c, After(c, s, events[0]), events[1..], s');
    }
  }

  /**
   Over every run in which no successful replay goes unpurged, the LLM table is the LLM
   rows of the persisted batches and of the one being purged, each batch's rows once.
   */
  lemma LlmRowsOnce(c: Config, events: seq<Event>, s: Sys)
    requires Faithful(c) && Execute(c, Fresh(), events) == Some(s) && !HasUnpurgedStep(c, Fresh(), events)
    ensures s.db.llmCalls == LlmOf(c, s.llmLog) && NoRepeats(s.llmLog) && |s.fate| == |s.accepted|
    ensures forall j :: j in s.llmLog <==>
                        Known(s, j) && (s.fate[j.id] == Persisted || (s.phase.Purging? && s.phase.job == j))
  {
    FreshInv(c);
    RunInv(c, Fresh(), events, s);
    RunLoggedOnce(c, Fresh(), events, s);
    forall j ensures j in s.llmLog <==> Known(s, j) && (s.fate[j.id] == Persisted || (s.phase.Purging? && s.phase.job == j)) {
      if j in s.llmLog {
        assert j in s.landed && LogSettled(s, j);
      }
      if Known(s, j) && s.fate[j.id] == Persisted {
        assert j == Job(j.id, s.accepted[j.id]);
      }
    }
  }

  // ---------------------------------------------------------------- refusals

  /** Until its attempt is decided, a batch in hand changes nothing stored, whatever producers do meanwhile. */
  lemma {:induction false} UndecidedWritesNothing(c: Config, s: Sys, waiting: seq<Event>, s': Sys)
    requires s.phase.Working? && s.phase.stage.Preparing? && Execute(c, s, waiting) == Some(s') && Decide !in waiting && Crash !in waiting
    ensures s'.phase == s.phase && s'.db == s.db && s'.disk == s.disk && s'.attempts == s.attempts
    ensures |s.fate| <= |s'.fate|
    decreases |waiting|
  {
    if waiting != [] {
      assert waiting[0] in waiting && forall e <- waiting[1..] :: e in waiting;
      var m := After(c, s, waiting[0]);
      assert m.phase == s.phase && m.db == s.db && m.disk == s.disk && m.attempts == s.attempts && |s.fate| <= |m.fate|;
      UndecidedWritesNothing(c, m, waiting[1..], s');
    }
  }

  /** From the moment a batch is taken to its refusal as non-retriable, no table and no journal entry changes. */
  lemma RefusalLeavesNoTrace(c: Config, s: Sys, waiting: seq<Event>, s': Sys)
    requires s.phase.Working? && s.phase.source.FromQueue? && s.phase.stage.Preparing? && s.phase.job.id < |s.fate|
    requires Decide !in waiting && Crash !in waiting && Execute(c, s, waiting + [Decide]) == Some(s')
    requires c.plan(s.attempts, s.phase.job.bytes).Err? && c.plan(s.attempts, s.phase.job.bytes).error != Store
    ensures s'.db == s.db && s'.disk == s.disk
    ensures s.phase.job.id < |s'.fate| && s'.fate[s.phase.job.id] == Rejected
  {
    ExecuteSplit(c, s, waiting, [Decide]);
    var m := Execute(c, s, waiting).value;
    UndecidedWritesNothing(c, s, waiting, m);
    assert [Decide][1..] == [];
  }

  /** First write wins, for good: no later step of any run changes or removes a stored event row. */
  lemma {:induction false} WriteOnce(c: Config, s: Sys, events: seq<Event>, s': Sys)
    requires Execute(c, s, events) == Some(s')
    ensures forall k <- s.db.events :: k in s'.db.events && s'.db.events[k] == s.db.events[k]
    ensures forall id <- s.db.attestations :: id in s'.db.attestations && s'.db.attestations[id] == s.db.attestations[id]
    decreases |events|
  {
    if events != [] {
      StepKeepsRows(c, s, events[0]);
      WriteOnce(c, After(c, s, events[0]), events[1..], s');
    }
  }

  lemma StepKeepsRows(c: Config, s: Sys, e: Event)
    requires CanStep(c, s, e)
    ensures forall k <- s.db.events :: k in After(c, s, e).db.events && After(c, s, e).db.events[k] == s.db.events[k]
    ensures forall id <- s.db.attestations ::
              id in After(c, s, e).db.attestations && After(c, s, e).db.attestations[id] == s.db.attestations[id]
  {
    match e
    case InsertEvents(_) => InsertRowsKeys(s.db.events, s.phase.stage.plan.rows);
    case MintOne(_) => assert After(c, s, e).db.events == s.db.events;
    case _ => assert After(c, s, e).db == s.db.(llmCalls := After(c, s, e).db.llmCalls);
  }

  // ---------------------------------------------------------------- where stored rows come from

  /** Attempt `n` admitted the batch with this plan. */
  ghost predicate Planned(c: Config, n: nat, j: Job, p: Plan) {
    c.plan(n, j.bytes) == Ok(p)
  }

  /** The row was in the plan of an attempt this run made at a batch whose events it stored. */
  ghost predicate RowPlanned(c: Config, s: Sys, r: Row) {
    exists n: nat, j, p :: Planned(c, n, j, p) && n < s.attempts && j in s.landed && r in p.rows
  }

  /** A batch that some attempt has admitted; it can no longer be refused. */
  ghost predicate PastDecision(s: Sys, j: Job) {
    && Known(s, j) && j.id < |s.fate| && CanLand(s.fate[j.id])
    && !(s.phase.Working? && s.phase.source.FromQueue? && s.phase.stage.Preparing? && s.phase.job == j)
  }

  ghost predicate AttestationPlanned(c: Config, s: Sys, a: AttestationInput) {
    exists n: nat, j, p :: Planned(c, n, j, p) && n < s.attempts && PastDecision(s, j) && a in p.attestations
  }

  ghost predicate HandPlanned(c: Config, s: Sys) {
    s.phase.Working? && !s.phase.stage.Preparing? ==> exists n: nat :: Planned(c, n, s.phase.job, s.phase.stage.plan) && n < s.attempts
  }

  /** Every stored row and attestation was in the plan of an attempt of this run at an accepted batch. */
  ghost predicate Traceable(c: Config, s: Sys) {
    && (forall k <- s.db.events :: RowPlanned(c, s, s.db.events[k]) && s.db.events[k].key == k)
    && (forall id <- s.db.attestations :: AttestationPlanned(c, s, s.db.attestations[id]))
    && HandPlanned(c, s)
  }

  lemma AttemptsStep(c: Config, s: Sys, e: Event)
    requires CanStep(c, s, e)
    ensures s.attempts <= After(c, s, e).attempts && s.landed <= After(c, s, e).landed
  {
  }

  lemma RowStaysPlanned(c: Config, s: Sys, e: Event, r: Row)
    requires CanStep(c, s, e) && RowPlanned(c, s, r)
    ensures RowPlanned(c, After(c, s, e), r)
  {
    AttemptsStep(c, s, e);
    var n: nat, j, p :| Planned(c, n, j, p) && n < s.attempts && j in s.landed && r in p.rows;
    assert n < After(c, s, e).attempts && j in After(c, s, e).landed;
  }

  /** How a fate leaves those past admission: only by the decision on the batch in hand. */
  lemma AdmissionStep(c: Config, s: Sys, e: Event, id: nat)
    requires CanStep(c, s, e) && id < |s.fate| && CanLand(s.fate[id]) && id < |After(c, s, e).fate| && !CanLand(After(c, s, e).fate[id])
    ensures e == Decide && s.phase.job.id == id && s.phase.source.FromQueue? && s.phase.stage.Preparing?
  {
  }

  lemma HandStep(c: Config, s: Sys, e: Event)
    requires CanStep(c, s, e)
    ensures var p := After(c, s, e).phase;
            p.Working? && p.source.FromQueue? && p.stage.Preparing? ==> p == s.phase || (e == Take && p.job == s.channel[0])
    ensures s.accepted <= After(c, s, e).accepted
  {
  }

  lemma PastStaysPast(c: Config, s: Sys, e: Event, j: Job)
    requires Inv(c, s) && CanStep(c, s, e) && PastDecision(s, j)
    ensures PastDecision(After(c, s, e), j)
  {
    FateMoves(c, s, e, j.id);
    HandStep(c, s, e);
    assert PlaceAgrees(s, j.id);
    if e == Take {
      assert s.channel[0] in s.channel && s.channel[0].id in Ids(s.channel);
    }
    if !CanLand(After(c, s, e).fate[j.id]) {
      AdmissionStep(c, s, e, j.id);
    }
  }

  lemma AttestationStaysPlanned(c: Config, s: Sys, e: Event, a: AttestationInput)
    requires Inv(c, s) && CanStep(c, s, e) && AttestationPlanned(c, s, a)
    ensures AttestationPlanned(c, After(c, s, e), a)
  {
    AttemptsStep(c, s, e);
    var n: nat, j, p :| Planned(c, n, j, p) && n < s.attempts && PastDecision(s, j) && a in p.attestations;
    PastStaysPast(c, s, e, j);
    assert n < After(c, s, e).attempts;
  }

  lemma StepHandPlanned(c: Config, s: Sys, e: Event)
    requires HandPlanned(c, s) && CanStep(c, s, e)
    ensures HandPlanned(c, After(c, s, e))
  {
    AttemptsStep(c, s, e);
    var p := After(c, s, e).phase;
    if e == Decide && c.plan(s.attempts, s.phase.job.bytes).Ok? {
      assert Planned(c, s.attempts, s.phase.job, c.plan(s.attempts, s.phase.job.bytes).value);
    } else if p.Working? && !p.stage.Preparing? {
      StageStep(c, s, e);
      var n: nat :| Planned(c, n, s.phase.job, s.phase.stage.plan) && n < s.attempts;
    }
  }

  lemma StageStep(c: Config, s: Sys, e: Event)
    requires CanStep(c, s, e) && After(c, s, e).phase.Working? && !After(c, s, e).phase.stage.Preparing?
    requires e == Decide ==> c.plan(s.attempts, s.phase.job.bytes).Err?
    ensures s.phase.Working? && !s.phase.stage.Preparing?
    ensures After(c, s, e).phase.job == s.phase.job && After(c, s, e).phase.stage.plan == s.phase.stage.plan
  {
  }

  /** The tables a step writes: the plan in hand, and nothing else. */
  lemma TableStep(c: Config, s: Sys, e: Event)
    requires CanStep(c, s, e)
    ensures After(c, s, e).db.events == if e == InsertEvents(true) then InsertRows(s.db.events, s.phase.stage.plan.rows) else s.db.events
    ensures forall id <- After(c, s, e).db.attestations ::
              || (id in s.db.attestations && After(c, s, e).db.attestations[id] == s.db.attestations[id])
              || (e.MintOne? && After(c, s, e).db.attestations[id] in s.phase.stage.plan.attestations)
  {
  }

  lemma StepTraceable(c: Config, s: Sys, e: Event)
    requires Inv(c, s) && Traceable(c, s) && CanStep(c, s, e)
    ensures Traceable(c, After(c, s, e))
  {
    StepHandPlanned(c, s, e);
    EventsTraceable(c, s, e);
    AttestationsTraceable(c, s, e);
  }

  lemma EventsTraceable(c: Config, s: Sys, e: Event)
    requires Traceable(c, s) && CanStep(c, s, e)
    ensures var s' := After(c, s, e); forall k <- s'.db.events :: RowPlanned(c, s', s'.db.events[k]) && s'.db.events[k].key == k
  {
    TableStep(c, s, e);
    LandedStep(c, s, e);
    AttemptsStep(c, s, e);
    var s' := After(c, s, e);
    if e == InsertEvents(true) {
      InsertRowsKeys(s.db.events, s.phase.stage.plan.rows);
    }
    forall k <- s'.db.events ensures RowPlanned(c, s', s'.db.events[k]) && s'.db.events[k].key == k {
      if k in s.db.events {
        RowStaysPlanned(c, s, e, s.db.events[k]);
      } else {
        var n: nat :| Planned(c, n, s.phase.job, s.phase.stage.plan) && n < s.attempts;
        assert s.phase.job in s'.landed && n < s'.attempts && s'.db.events[k] in s.phase.stage.plan.rows;
      }
    }
  }

  lemma AttestationsTraceable(c: Config, s: Sys, e: Event)
    requires Inv(c, s) && Traceable(c, s) && CanStep(c, s, e)
    ensures var s' := After(c, s, e); forall id <- s'.db.attestations :: AttestationPlanned(c, s', s'.db.attestations[id])
  {
    TableStep(c, s, e);
    var s' := After(c, s, e);
    forall id <- s'.db.attestations ensures AttestationPlanned(c, s', s'.db.attestations[id]) {
      var a := s'.db.attestations[id];
      if !(id in s.db.attestations && a == s.db.attestations[id]) {
        WorkingFate(c, s);
        var n: nat :| Planned(c, n, s.phase.job, s.phase.stage.plan) && n < s.attempts;
        assert PastDecision(s, s.phase.job);
      }
      AttestationStaysPlanned(c, s, e, a);
    }
  }

  lemma {:induction false} RunTraceable(c: Config, s: Sys, events: seq<Event>, s': Sys)
    requires Faithful(c) && Inv(c, s) && Traceable(c, s) && Execute(c, s, events) == Some(s')
    ensures Inv(c, s') && Traceable(c, s')
    decreases |events|
  {
    if events != [] {
      StepInv(c, s, events[0]);
      StepTraceable(c, s, events[0]);
      RunTraceable(c, After(c, s, events[0]), events[1..], s');
    }
  }

  lemma ReachableTraceable(c: Config, events: seq<Event>, s: Sys)
    requires Faithful(c) && Execute(c, Fresh(), events) == Some(s)
    ensures Inv(c, s) && Traceable(c, s)
  {
    FreshInv(c);
    RunTraceable(c, Fresh(), events, s);
  }

  /** Another batch than the refused one accounts for what is stored. */
  ghost predicate KeyFromOther(c: Config, s: Sys, id: nat, k: EventKey) {
    exists j :: j in s.landed && j.id != id && Known(s, j) && k in c.keys(j.bytes)
  }

  ghost predicate AttestationFromOther(c: Config, s: Sys, id: nat, a: AttestationInput) {
    exists n: nat, j, p :: Planned(c, n, j, p) && j.id != id && Known(s, j) && a in p.attestations
  }

  /**
   A batch dropped as non-retriable left nothing in any table: every stored event key and
   attestation is accounted for by another batch, and the LLM table is other batches' rows.
   */
  lemma RejectedLeftNothing(c: Config, events: seq<Event>, s: Sys, id: nat)
    requires Faithful(c) && Execute(c, Fresh(), events) == Some(s) && id < |s.fate| && s.fate[id] == Rejected
    ensures forall k <- s.db.events :: KeyFromOther(c, s, id, k)
    ensures forall i <- s.db.attestations :: AttestationFromOther(c, s, id, s.db.attestations[i])
    ensures s.db.llmCalls == LlmOf(c, s.llmLog) && forall j <- s.llmLog :: Known(s, j) && j.id != id
  {
    ReachableTraceable(c, events, s);
    forall k <- s.db.events ensures KeyFromOther(c, s, id, k) {
      var j :| j in s.landed && k in c.keys(j.bytes);
      assert Known(s, j) && CanLand(s.fate[j.id]);
    }
    forall i <- s.db.attestations ensures AttestationFromOther(c, s, id, s.db.attestations[i]) {
      var a := s.db.attestations[i];
      assert AttestationPlanned(c, s, a);
      var n: nat, j, p :| Planned(c, n, j, p) && n < s.attempts && PastDecision(s, j) && a in p.attestations;
      assert j.id != id;
    }
    forall j <- s.llmLog ensures Known(s, j) && j.id != id {
      assert j in s.landed && CanLand(s.fate[j.id]);
    }
  }

  lemma NodePlan(wire: Wire, depth: nat, world: nat -> World, n: nat, b: Bytes) returns (p: Prepared)
    requires NodeConfig(wire, depth, world).plan(n, b).Ok?
    ensures Prepare(wire, world(n), Full, b) == Ok(p)
    ensures NodeConfig(wire, depth, world).plan(n, b) == Ok(Plan(Rows(p), LlmRows(p), Attestations(p)))
  {
    var r := Prepare(wire, world(n), Full, b);
    assert NodeConfig(wire, depth, world).plan(n, b) == PlanOf(r);
    assert r.Ok?;
    p := r.value;
  }

  lemma SameKeys(a: seq<Row>, b: seq<Row>)
    requires |a| == |b| && forall i :: 0 <= i < |a| ==> a[i].key == b[i].key
    ensures KeysOf(a) == KeysOf(b)
  {
  }

  lemma PreparedFits(wire: Wire, world: World, b: Bytes, p: Prepared)
    requires Prepare(wire, world, Full, b) == Ok(p)
    ensures KeysOf(Rows(p)) == BatchKeys(wire, b) && LlmRows(p) == BatchLlm(wire, b)
  {
    RowsFollowDecompose(wire, world, Full, b, p);
    LlmFollowsDecompose(wire, world, Full, b, p);
    SameKeys(Rows(p), Concat(BaseRows(wire, wire.parse(b).value.events)));
  }

  /** A node's attempts at one batch store the same event keys and LLM rows, whatever they meet. */
  lemma NodeIsFaithful(wire: Wire, depth: nat, world: nat -> World)
    ensures Faithful(NodeConfig(wire, depth, world))
  {
    var c := NodeConfig(wire, depth, world);
    forall n, b | c.plan(n, b).Ok? ensures PlanFits(c, c.plan(n, b).value, b) {
      var p := NodePlan(wire, depth, world, n, b);
      PreparedFits(wire, world(n), b, p);
    }
  }

  /**
   Over every run of a node, through outages, crashes and replays: each stored row comes
   from an attempt of this run at an accepted batch, carries a component of one of its
   traces, verifies from its own columns, is marked as verified by this node, and names a
   target its writer was admitted to by the directory of that attempt.
   */
  lemma StoredRowsSound(wire: Wire, depth: nat, world: nat -> World, events: seq<Event>, s: Sys, k: EventKey)
    returns (n: nat, b: Bytes, p: Prepared, t: CompleteTrace, i: nat)
    requires Execute(NodeConfig(wire, depth, world), Fresh(), events) == Some(s) && k in s.db.events
    ensures n < s.attempts && b in s.accepted && Prepare(wire, world(n), Full, b) == Ok(p) && s.db.events[k] in Rows(p)
    ensures wire.parse(b).Ok? && t in wire.parse(b).value.events && i < |t.components| && s.db.events[k].payload == t.components[i].data
    ensures var row := s.db.events[k];
            row.key == k && row.source == ByPersist && VerifiesAlone(wire, row) && InScope(world(n).dir, world(n).signerKeyId, row)
  {
    var c := NodeConfig(wire, depth, world);
    NodeIsFaithful(wire, depth, world);
    ReachableTraceable(c, events, s);
    var j, plan;
    n, j, plan := StoredRowPlanned(c, s, k);
    b := j.bytes;
    p := NodePlan(wire, depth, world, n, b);
    var scrubbed;
    t, i, scrubbed := RowOrigin(wire, world(n), Full, b, p, s.db.events[k]);
  }

  lemma StoredRowPlanned(c: Config, s: Sys, k: EventKey) returns (n: nat, j: Job, p: Plan)
    requires Inv(c, s) && Traceable(c, s) && k in s.db.events
    ensures n < s.attempts && j.bytes in s.accepted && c.plan(n, j.bytes) == Ok(p) && s.db.events[k] in p.rows && s.db.events[k].key == k
  {
    assert RowPlanned(c, s, s.db.events[k]);
    n, j, p :| Planned(c, n, j, p) && n < s.attempts && j in s.landed && s.db.events[k] in p.rows;
    assert Known(s, j);
  }

  /** Two stored rows with one signature carry the same content and the same signed statements, whichever attempts made them. */
  lemma StoredSignaturesBind(wire: Wire, depth: nat, world: nat -> World, events: seq<Event>, s: Sys, k: EventKey, l: EventKey)
    requires Execute(NodeConfig(wire, depth, world), Fresh(), events) == Some(s) && k in s.db.events && l in s.db.events
    ensures s.db.events[k].scrub.Some? && s.db.events[l].scrub.Some?
    ensures s.db.events[k].scrub.value.signature == s.db.events[l].scrub.value.signature ==>
              && PayloadDigest(wire, s.db.events[k].payload) == PayloadDigest(wire, s.db.events[l].payload)
              && s.db.events[k].scrub.value.(timestamp := 0) == s.db.events[l].scrub.value.(timestamp := 0)
  {
    var _, _, _, _, _ := StoredRowsSound(wire, depth, world, events, s, k);
    var _, _, _, _, _ := StoredRowsSound(wire, depth, world, events, s, l);
    if s.db.events[k].scrub.value.signature == s.db.events[l].scrub.value.signature {
      SignatureBindsClaims(wire, s.db.events[k], s.db.events[l]);
    }
  }

  /** At most one attestation per trace, whatever the envelope shape: stored attestations that name one trace are one. */
  lemma OneAttestationPerTrace(wire: Wire, depth: nat, world: nat -> World, events: seq<Event>, s: Sys, a: AttestationInput, b: AttestationInput)
    requires Execute(NodeConfig(wire, depth, world), Fresh(), events) == Some(s)
    requires a in s.db.attestations.Values && b in s.db.attestations.Values && a.envelope.traceId == b.envelope.traceId
    ensures a == b
  {
    var c := NodeConfig(wire, depth, world);
    NodeIsFaithful(wire, depth, world);
    ReachableTraceable(c, events, s);
    IdNamesTrace(wire, depth, world, s, a);
    IdNamesTrace(wire, depth, world, s, b);
  }

  /** The id a stored attestation is keyed by is that of the trace its envelope names. */
  lemma IdNamesTrace(wire: Wire, depth: nat, world: nat -> World, s: Sys, a: AttestationInput)
    requires Traceable(NodeConfig(wire, depth, world), s) && a in s.db.attestations.Values
    ensures a.id == AttestationId(a.envelope.traceId)
  {
    var n, j, plan := StoredAttestationPlanned(NodeConfig(wire, depth, world), s, a);
    PlannedIdNamesTrace(wire, depth, world, n, j.bytes, plan, a);
  }

  lemma PlannedIdNamesTrace(wire: Wire, depth: nat, world: nat -> World, n: nat, b: Bytes, plan: Plan, a: AttestationInput)
    requires NodeConfig(wire, depth, world).plan(n, b) == Ok(plan) && a in plan.attestations
    ensures a.id == AttestationId(a.envelope.traceId)
  {
    var p := NodePlan(wire, depth, world, n, b);
    var t := AttestationOrigin(wire, world(n), Full, b, p, a);
    BuiltIdNamesTrace(wire, t, a);
  }

  lemma BuiltIdNamesTrace(wire: Wire, t: CompleteTrace, a: AttestationInput)
    requires BuildAttestation(wire, t) == Ok(a)
    ensures a.id == AttestationId(a.envelope.traceId)
  {
  }

  lemma StoredAttestationPlanned(c: Config, s: Sys, a: AttestationInput) returns (n: nat, j: Job, p: Plan)
    requires Traceable(c, s) && a in s.db.attestations.Values
    ensures c.plan(n, j.bytes) == Ok(p) && a in p.attestations
  {
    var id :| id in s.db.attestations && s.db.attestations[id] == a;
    assert AttestationPlanned(c, s, a);
    n, j, p :| Planned(c, n, j, p) && n < s.attempts && PastDecision(s, j) && a in p.attestations;
  }
}
