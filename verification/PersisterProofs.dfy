/** What every step of the persister keeps, and what follows over whole runs. */
module PersisterProofs {
  import opened Common
  import opened Journal
  import opened IngestModel
  import opened IngestProperties
  import opened Persister

  // ---------------------------------------------------------------- bookkeeping

  ghost predicate Known(s: Sys, j: Job) {
    j.id < |s.accepted| && s.accepted[j.id] == j.bytes
  }

  ghost function Ids(q: seq<Job>): set<nat> {
    set j <- q :: j.id
  }

  ghost predicate DistinctIds(q: seq<Job>) {
    forall i, j :: 0 <= i < j < |q| ==> q[i].id != q[j].id
  }

  ghost function DiskIds(q: map<nat, Job>): set<nat> {
    set at <- q :: q[at].id
  }

  ghost predicate DistinctDisk(q: map<nat, Job>) {
    forall a, b :: a in q && b in q && q[a].id == q[b].id ==> a == b
  }

  /** The queued batch the persister holds, if any. */
  ghost function InHand(p: Phase): Option<Job> {
    match p
    case Working(job, FromQueue, _) => Some(job)
    case Journaling(job) => Some(job)
    case _ => None
  }

  lemma IdsAppend(q: seq<Job>, j: Job)
    ensures Ids(q + [j]) == Ids(q) + {j.id}
  {
  }

  lemma IdsTail(q: seq<Job>)
    requires q != [] && DistinctIds(q)
    ensures Ids(q[1..]) == Ids(q) - {q[0].id} && DistinctIds(q[1..])
  {
  }

  lemma DiskIdsCommit(q: map<nat, Job>, at: nat, j: Job)
    requires at !in q && j.id !in DiskIds(q) && DistinctDisk(q)
    ensures DiskIds(q[at := j]) == DiskIds(q) + {j.id} && DistinctDisk(q[at := j])
  {
    var q' := q[at := j];
    assert forall a <- q :: a in q' && q'[a] == q[a];
    assert q'[at] == j;
    forall a, b | a in q' && b in q' && q'[a].id == q'[b].id ensures a == b {
      assert a != at ==> q'[a].id in DiskIds(q);
      assert b != at ==> q'[b].id in DiskIds(q);
    }
  }

  lemma DiskIdsPurge(q: map<nat, Job>, at: nat)
    requires at in q && DistinctDisk(q)
    ensures DiskIds(q - {at}) == DiskIds(q) - {q[at].id} && DistinctDisk(q - {at})
  {
    var q' := q - {at};
    assert forall a <- q :: a == at || (a in q' && q'[a] == q[a]);
    forall id <- DiskIds(q') ensures id != q[at].id {
      var a :| a in q' && q'[a].id == id;
    }
  }

  /** Every batch ever accepted has one fate, and the fates agree with where the batches are. */
  ghost predicate Booked(s: Sys) {
    && |s.fate| == |s.accepted|
    && (forall j <- s.channel :: Known(s, j)) && DistinctIds(s.channel)
    && (forall at <- s.disk.queued :: Known(s, s.disk.queued[at])) && DistinctDisk(s.disk.queued)
    && (InHand(s.phase).Some? ==> Known(s, InHand(s.phase).value))
    && (forall id :: 0 <= id < |s.fate| ==> PlaceAgrees(s, id))
  }

  ghost predicate PlaceAgrees(s: Sys, id: nat)
    requires id < |s.fate|
  {
    && (s.fate[id] == Queued <==> id in Ids(s.channel))
    && (s.fate[id] == InProcess <==> InHand(s.phase).Some? && InHand(s.phase).value.id == id)
    && (s.fate[id] == Journaled <==> id in DiskIds(s.disk.queued))
  }

  /** A replayed batch is still the journal entry it was read from. */
  ghost predicate PhasePoints(s: Sys) {
    && (s.phase.Working? && s.phase.source.FromJournal? ==>
          s.phase.source.at in s.disk.queued && s.disk.queued[s.phase.source.at] == s.phase.job)
    && (s.phase.Purging? ==> s.phase.at in s.disk.queued && s.disk.queued[s.phase.at] == s.phase.job)
  }

  /** The phase points at real work, the channel respects its depth, the counter its keys. */
  ghost predicate Orderly(c: Config, s: Sys) {
    && |s.channel| <= c.depth
    && (s.phase.Down? || s.phase.Exited? ==> s.channel == [])
    && (s.phase.Exited? ==> !s.sendersOpen)
    && PhasePoints(s)
    && CounterAbove(s.disk) && Recovered(s.disk) <= s.nextSeq
  }

  // ---------------------------------------------------------------- the store

  ghost function LandedKeys(c: Config, landed: set<Job>): set<EventKey> {
    set j, k | j in landed && k in c.keys(j.bytes) :: k
  }

  ghost function LlmOf(c: Config, log: seq<Job>): seq<LlmRow> {
    if log == [] then [] else LlmOf(c, log[..|log| - 1]) + c.llm(log[|log| - 1].bytes)
  }

  ghost predicate CanLand(f: Fate) {
    f != Queued && f != Rejected
  }

  /** The store holds exactly the batches that landed, and only batches past admission land. */
  ghost predicate Stored(c: Config, s: Sys) {
    && |s.fate| == |s.accepted|
    && s.db.events.Keys == LandedKeys(c, s.landed)
    && s.db.llmCalls == LlmOf(c, s.llmLog)
    && (forall j <- s.landed :: Known(s, j) && CanLand(s.fate[j.id]))
    && (forall j <- s.llmLog :: j in s.landed)
    && (forall id :: 0 <= id < |s.fate| && s.fate[id] == Persisted ==> Job(id, s.accepted[id]) in s.llmLog)
    && (forall id <- s.db.attestations :: s.db.attestations[id].id == id)
  }

  /** What the batch in hand has reached. */
  ghost predicate Staged(c: Config, s: Sys) {
    match s.phase
    case Working(job, source, stage) =>
      && Known(s, job)
      && (source.FromQueue? && !stage.EventsStored? ==> job !in s.landed)
      && (stage.EventsStored? ==> job in s.landed && PlanFits(c, stage.plan, job.bytes))
      && (stage.Minting? ==> PlanFits(c, stage.plan, job.bytes))
    case Purging(job, _) => Known(s, job) && job in s.landed && job in s.llmLog
    case _ => true
  }

  ghost predicate Inv(c: Config, s: Sys) {
    Booked(s) && Orderly(c, s) && Stored(c, s) && Staged(c, s)
  }

  // ---------------------------------------------------------------- one step

  /** A step that moves no batch. */
  lemma BookedSame(s: Sys, s': Sys)
    requires Booked(s)
    requires s'.accepted == s.accepted && s'.fate == s.fate && s'.channel == s.channel && s'.disk.queued == s.disk.queued
    requires InHand(s'.phase) == InHand(s.phase)
    ensures Booked(s')
  {
    forall id | 0 <= id < |s'.fate| ensures PlaceAgrees(s', id) { assert PlaceAgrees(s, id); }
  }

  lemma BookedSubmit(s: Sys, s': Sys, b: Bytes)
    requires Booked(s)
    requires s' == s.(channel := s.channel + [Job(|s.accepted|, b)], accepted := s.accepted + [b], fate := s.fate + [Queued])
    ensures Booked(s')
  {
    var n := |s.accepted|;
    IdsAppend(s.channel, Job(n, b));
    forall id | 0 <= id < |s'.fate| ensures PlaceAgrees(s', id) {
      if id < n {
        assert PlaceAgrees(s, id);
      }
    }
  }

  lemma BookedTake(s: Sys, s': Sys)
    requires Booked(s) && s.phase.Idle? && s.channel != []
    requires s' == SetFate(s.(channel := s.channel[1..], phase := Working(s.channel[0], FromQueue, Preparing)), s.channel[0], InProcess)
    ensures Booked(s')
  {
    HeadKnown(s);
    IdsTail(s.channel);
    assert forall j <- s.channel[1..] :: j in s.channel && Known(s, j);
    forall id | 0 <= id < |s'.fate| ensures PlaceAgrees(s', id) { assert PlaceAgrees(s, id); }
  }

  /** The batch in hand reaches a final fate. */
  lemma BookedFinish(s: Sys, s': Sys, f: Fate)
    requires Booked(s) && InHand(s.phase).Some? && InHand(s'.phase).None?
    requires f != Queued && f != InProcess && f != Journaled
    requires s'.accepted == s.accepted && s'.channel == s.channel && s'.disk.queued == s.disk.queued
    requires s'.fate == s.fate[InHand(s.phase).value.id := f]
    ensures Booked(s')
  {
    forall id | 0 <= id < |s'.fate| ensures PlaceAgrees(s', id) { assert PlaceAgrees(s, id); }
  }

  lemma BookedJournal(s: Sys, s': Sys, at: nat)
    requires Booked(s) && s.phase.Journaling? && InHand(s'.phase).None? && at !in s.disk.queued
    requires s'.accepted == s.accepted && s'.channel == s.channel
    requires s'.disk.queued == s.disk.queued[at := s.phase.job] && s'.fate == s.fate[s.phase.job.id := Journaled]
    ensures Booked(s')
  {
    assert PlaceAgrees(s, s.phase.job.id);
    DiskIdsCommit(s.disk.queued, at, s.phase.job);
    forall id | 0 <= id < |s'.fate| ensures PlaceAgrees(s', id) { assert PlaceAgrees(s, id); }
  }

  lemma BookedPurge(s: Sys, s': Sys, at: nat)
    requires Booked(s) && InHand(s.phase).None? && InHand(s'.phase).None? && at in s.disk.queued
    requires s'.accepted == s.accepted && s'.channel == s.channel
    requires s'.disk.queued == s.disk.queued - {at} && s'.fate == s.fate[s.disk.queued[at].id := Persisted]
    ensures Booked(s')
  {
    DiskIdsPurge(s.disk.queued, at);
    var gone := s.disk.queued[at].id;
    forall id | 0 <= id < |s'.fate| ensures PlaceAgrees(s', id) {
      assert PlaceAgrees(s, id);
      assert gone in DiskIds(s.disk.queued);
    }
  }

  lemma BookedCrash(s: Sys)
    requires Booked(s)
    ensures Booked(Crashed(s))
  {
    var s' := Crashed(s);
    assert Ids([]) == {};
    forall id | 0 <= id < |s'.fate| ensures PlaceAgrees(s', id) { assert PlaceAgrees(s, id); }
  }

  lemma LandedKeysAdd(c: Config, landed: set<Job>, j: Job)
    ensures LandedKeys(c, landed + {j}) == LandedKeys(c, landed) + c.keys(j.bytes)
  {
  }

  /** A step that writes nothing and fates at most the batch in hand. */
  lemma StoredFate(c: Config, s: Sys, s': Sys, id: nat, f: Fate)
    requires Stored(c, s) && s'.db == s.db && s'.landed == s.landed && s'.llmLog == s.llmLog
    requires s'.accepted == s.accepted && id < |s.fate| && s'.fate == s.fate[id := f]
    requires CanLand(f) || Job(id, s.accepted[id]) !in s.landed
    requires f == Persisted ==> Job(id, s.accepted[id]) in s.llmLog
    ensures Stored(c, s')
  {
  }

  lemma StoredSame(c: Config, s: Sys, s': Sys)
    requires Stored(c, s) && s'.db == s.db && s'.landed == s.landed && s'.llmLog == s.llmLog
    requires s'.accepted == s.accepted && s'.fate == s.fate
    ensures Stored(c, s')
  {
  }

  lemma StoredSubmit(c: Config, s: Sys, b: Bytes)
    requires Stored(c, s)
    ensures Stored(c, s.(channel := s.channel + [Job(|s.accepted|, b)], accepted := s.accepted + [b], fate := s.fate + [Queued]))
  {
  }

  lemma StoredCrash(c: Config, s: Sys)
    requires Stored(c, s)
    ensures Stored(c, Crashed(s))
  {
  }

  lemma StoredEvents(c: Config, s: Sys, s': Sys)
    requires Stored(c, s) && Staged(c, s) && Booked(s) && s.phase.Working? && s.phase.stage.Minting? && CanLand(s.fate[s.phase.job.id])
    requires s' == s.(db := s.db.(events := InsertRows(s.db.events, s.phase.stage.plan.rows)),
                      landed := s.landed + {s.phase.job}, phase := s.phase.(stage := EventsStored(s.phase.stage.plan)))
    ensures Stored(c, s')
  {
    InsertRowsKeys(s.db.events, s.phase.stage.plan.rows);
    LandedKeysAdd(c, s.landed, s.phase.job);
  }

  lemma StoredLlm(c: Config, s: Sys, s': Sys)
    requires Stored(c, s) && s'.accepted == s.accepted && s'.fate == s.fate && s'.landed == s.landed
    requires s.phase.Working? && s.phase.stage.EventsStored? && Staged(c, s)
    requires s'.llmLog == s.llmLog + [s.phase.job]
    requires s'.db == s.db.(llmCalls := s.db.llmCalls + s.phase.stage.plan.llm)
    ensures Stored(c, s')
  {
  }

  lemma StepSubmit(c: Config, s: Sys, b: Bytes)
    requires CanStep(c, s, Submit(b)) && Inv(c, s)
    ensures Inv(c, After(c, s, Submit(b)))
  {
    if |s.channel| < c.depth {
      BookedSubmit(s, After(c, s, Submit(b)), b);
      StoredSubmit(c, s, b);
    }
  }

  lemma HeadKnown(s: Sys)
    requires Booked(s) && s.channel != []
    ensures Known(s, s.channel[0]) && s.fate[s.channel[0].id] == Queued
  {
    assert s.channel[0] in s.channel;
    assert PlaceAgrees(s, s.channel[0].id);
  }

  lemma StepTake(c: Config, s: Sys)
    requires CanStep(c, s, Take) && Inv(c, s)
    ensures Inv(c, After(c, s, Take))
  {
    HeadKnown(s);
    var s' := After(c, s, Take);
    BookedTake(s, s');
    StoredFate(c, s, s', s.channel[0].id, InProcess);
  }

  /** Steps that only move the phase: no batch changes place and nothing is written. */
  lemma StepQuiet(c: Config, s: Sys, s': Sys)
    requires Inv(c, s) && s'.accepted == s.accepted && s'.fate == s.fate && s'.channel == s.channel && s'.disk == s.disk
    requires s'.db == s.db && s'.landed == s.landed && s'.llmLog == s.llmLog
    requires Recovered(s'.disk) <= s'.nextSeq && InHand(s'.phase) == InHand(s.phase)
    requires s'.phase.Down? || s'.phase.Exited? ==> s.channel == []
    requires s'.phase.Exited? ==> !s'.sendersOpen
    requires Staged(c, s') && PhasePoints(s')
    ensures Inv(c, s')
  {
    BookedSame(s, s');
    StoredSame(c, s, s');
  }

  lemma StepReplayRound(c: Config, s: Sys, readFails: bool)
    requires CanStep(c, s, ReplayRound(readFails)) && Inv(c, s)
    ensures Inv(c, After(c, s, ReplayRound(readFails)))
  {
    StepQuiet(c, s, After(c, s, ReplayRound(readFails)));
  }

  lemma StepStoreFailed(c: Config, s: Sys, s0: Sys)
    requires Inv(c, s) && s.phase.Working? && s0 == s.(attempts := s0.attempts)
    ensures Inv(c, StoreFailed(s0))
  {
    StepQuiet(c, s, StoreFailed(s0));
  }

  lemma StepDecide(c: Config, s: Sys)
    requires Faithful(c) && CanStep(c, s, Decide) && Inv(c, s)
    ensures Inv(c, After(c, s, Decide))
  {
    var s' := After(c, s, Decide);
    var r := c.plan(s.attempts, s.phase.job.bytes);
    if r.Ok? {
      StepAdmit(c, s, r.value);
    } else if r.error == Store {
      StepStoreFailed(c, s, s.(attempts := s.attempts + 1));
    } else if s.phase.source.FromJournal? {
      StepQuiet(c, s, s');
    } else {
      StepReject(c, s, s');
    }
  }

  lemma StepReject(c: Config, s: Sys, s': Sys)
    requires Inv(c, s) && s.phase.Working? && s.phase.source.FromQueue? && s.phase.stage.Preparing?
    requires s' == SetFate(s.(attempts := s'.attempts, phase := Idle), s.phase.job, Rejected)
    ensures Inv(c, s')
  {
    BookedFinish(s, s', Rejected);
    StoredFate(c, s, s', s.phase.job.id, Rejected);
  }

  lemma StepAdmit(c: Config, s: Sys, p: Plan)
    requires Inv(c, s) && s.phase.Working? && s.phase.stage.Preparing? && PlanFits(c, p, s.phase.job.bytes)
    ensures Inv(c, s.(attempts := s.attempts + 1, phase := s.phase.(stage := Minting(p, 0))))
  {
    StepQuiet(c, s, s.(attempts := s.attempts + 1, phase := s.phase.(stage := Minting(p, 0))));
  }

  lemma StepMint(c: Config, s: Sys, lands: bool)
    requires CanStep(c, s, MintOne(lands)) && Inv(c, s)
    ensures Inv(c, After(c, s, MintOne(lands)))
  {
    BookedSame(s, After(c, s, MintOne(lands)));
  }

  lemma WorkingFate(c: Config, s: Sys)
    requires Inv(c, s) && s.phase.Working?
    ensures CanLand(s.fate[s.phase.job.id]) && s.fate[s.phase.job.id] != Persisted
  {
    assert PlaceAgrees(s, s.phase.job.id);
    if s.phase.source.FromJournal? {
      assert s.disk.queued[s.phase.source.at].id in DiskIds(s.disk.queued);
    }
  }

  lemma StepInsertEvents(c: Config, s: Sys, commits: bool)
    requires CanStep(c, s, InsertEvents(commits)) && Inv(c, s)
    ensures Inv(c, After(c, s, InsertEvents(commits)))
  {
    if commits {
      var s' := After(c, s, InsertEvents(commits));
      WorkingFate(c, s);
      StoredEvents(c, s, s');
      BookedSame(s, s');
    } else {
      StepStoreFailed(c, s, s);
    }
  }

  lemma StepInsertLlm(c: Config, s: Sys, commits: bool)
    requires CanStep(c, s, InsertLlm(commits)) && Inv(c, s)
    ensures Inv(c, After(c, s, InsertLlm(commits)))
  {
    if commits {
      var s' := After(c, s, InsertLlm(commits));
      var mid := s.(db := s.db.(llmCalls := s.db.llmCalls + s.phase.stage.plan.llm), llmLog := s.llmLog + [s.phase.job]);
      StoredLlm(c, s, mid);
      BookedSame(s, mid);
      if s.phase.source.FromQueue? {
        StepPersist(c, mid, s');
      } else {
        StepToPurge(c, mid, s');
      }
    } else {
      StepStoreFailed(c, s, s);
    }
  }

  lemma StepPersist(c: Config, mid: Sys, s': Sys)
    requires Inv(c, mid) && mid.phase.Working? && mid.phase.source.FromQueue? && mid.phase.job in mid.llmLog
    requires s' == SetFate(mid.(phase := Idle), mid.phase.job, Persisted)
    ensures Inv(c, s')
  {
    StoredFate(c, mid, s', mid.phase.job.id, Persisted);
    BookedFinish(mid, s', Persisted);
  }

  lemma StepToPurge(c: Config, mid: Sys, s': Sys)
    requires Inv(c, mid) && mid.phase.Working? && mid.phase.source.FromJournal? && mid.phase.job in mid.llmLog
    requires s' == mid.(phase := Purging(mid.phase.job, mid.phase.source.at))
    ensures Inv(c, s')
  {
    StoredSame(c, mid, s');
    BookedSame(mid, s');
  }

  lemma StepPurge(c: Config, s: Sys, commits: bool)
    requires CanStep(c, s, PurgeEntry(commits)) && Inv(c, s)
    ensures Inv(c, After(c, s, PurgeEntry(commits)))
  {
    var s' := After(c, s, PurgeEntry(commits));
    if commits {
      BookedPurge(s, s', s.phase.at);
      StoredFate(c, s, s', s.phase.job.id, Persisted);
    } else {
      StepQuiet(c, s, s');
    }
  }

  lemma StepAppend(c: Config, s: Sys, commits: bool)
    requires CanStep(c, s, AppendEntry(commits)) && Inv(c, s)
    ensures Inv(c, After(c, s, AppendEntry(commits)))
  {
    var s' := After(c, s, AppendEntry(commits));
    if commits {
      BookedJournal(s, s', s.nextSeq);
      StoredFate(c, s, s', s.phase.job.id, Journaled);
    } else {
      BookedFinish(s, s', LostAppend);
      StoredFate(c, s, s', s.phase.job.id, LostAppend);
    }
  }

  lemma StepCrash(c: Config, s: Sys)
    requires CanStep(c, s, Crash) && Inv(c, s)
    ensures Inv(c, After(c, s, Crash))
  {
    BookedCrash(s);
    StoredCrash(c, s);
  }

  /** Every step of the machine keeps the invariant. */
  lemma StepInv(c: Config, s: Sys, e: Event)
    requires Faithful(c) && CanStep(c, s, e) && Inv(c, s)
    ensures Inv(c, After(c, s, e))
  {
    match e
    case Submit(b) => StepSubmit(c, s, b);
    case Take => StepTake(c, s);
    case ReplayRound(f) => StepReplayRound(c, s, f);
    case Decide => StepDecide(c, s);
    case MintOne(l) => StepMint(c, s, l);
    case InsertEvents(k) => StepInsertEvents(c, s, k);
    case InsertLlm(k) => StepInsertLlm(c, s, k);
    case PurgeEntry(k) => StepPurge(c, s, k);
    case AppendEntry(k) => StepAppend(c, s, k);
    case Crash => StepCrash(c, s);
    case CloseSenders => StepQuiet(c, s, s.(sendersOpen := false));
    case Exit => StepQuiet(c, s, s.(phase := Exited));
    case Start => StepQuiet(c, s, s.(phase := Replaying, sendersOpen := true, nextSeq := Recovered(s.disk)));
  }

  lemma FreshInv(c: Config)
    ensures Inv(c, Fresh())
  {
  }

  /** The invariant holds in every reachable state. */
  lemma {:induction false} RunInv(c: Config, s: Sys, events: seq<Event>, s': Sys)
    requires Faithful(c) && Inv(c, s) && Execute(c, s, events) == Some(s')
    ensures Inv(c, s')
    decreases |events|
  {
    if events != [] {
      StepInv(c, s, events[0]);
      RunInv(c, After(c, s, events[0]), events[1..], s');
    }
  }

  lemma {:induction false} ExecuteSplit(c: Config, s: Sys, a: seq<Event>, b: seq<Event>)
    ensures Execute(c, s, a + b) == match Execute(c, s, a) case None => None case Some(m) => Execute(c, m, b)
    decreases |a|
  {
    if a == [] {
      assert a + b == b;
    } else if CanStep(c, s, a[0]) {
      ExecuteSplit(c, After(c, s, a[0]), a[1..], b);
      assert (a + b)[1..] == a[1..] + b;
    }
  }
}
