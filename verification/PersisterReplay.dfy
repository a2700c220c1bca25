/** When the persister's journal drains, when it cannot, and what a crash costs. */
module PersisterReplay {
  import opened Common
  import opened Journal
  import opened IngestModel
  import opened IngestProperties
  import opened Persister
  import opened PersisterProofs

  // ---------------------------------------------------------------- append order

  /** A replayed entry is the oldest one: replay follows append order. */
  ghost predicate OldestInHand(s: Sys) {
    && (s.phase.Working? && s.phase.source.FromJournal? ==> forall k <- s.disk.queued :: s.phase.source.at <= k)
    && (s.phase.Purging? ==> forall k <- s.disk.queued :: s.phase.at <= k)
  }

  lemma StepOldest(c: Config, s: Sys, e: Event)
    requires OldestInHand(s) && CanStep(c, s, e)
    ensures OldestInHand(After(c, s, e))
  {
  }

  lemma {:induction false} ReplayFollowsAppends(c: Config, s: Sys, events: seq<Event>, s': Sys)
    requires OldestInHand(s) && Execute(c, s, events) == Some(s')
    ensures OldestInHand(s')
    decreases |events|
  {
    if events != [] {
      StepOldest(c, s, events[0]);
      ReplayFollowsAppends(c, After(c, s, events[0]), events[1..], s');
    }
  }

  /** In every reachable state the entry being replayed or purged is the oldest one. */
  lemma ReachableOldest(c: Config, before: seq<Event>, s: Sys)
    requires Faithful(c) && Execute(c, Fresh(), before) == Some(s)
    ensures Inv(c, s) && OldestInHand(s)
  {
    FreshInv(c);
    RunInv(c, Fresh(), before, s);
    ReplayFollowsAppends(c, Fresh(), before, s);
  }

  /**
   The journal is a first-in first-out queue over every run: an append goes last, a purge
   takes the first, no other step moves an entry, and a replay round hands over the first.
   */
  lemma JournalIsFifo(c: Config, before: seq<Event>, s: Sys, e: Event)
    requires Faithful(c) && Execute(c, Fresh(), before) == Some(s) && CanStep(c, s, e)
    ensures var q, s' := Entries(s.disk.queued), After(c, s, e);
            && Entries(s'.disk.queued) == (if e == AppendEntry(true) then q + [s.phase.job]
                                           else if e == PurgeEntry(true) && q != [] then q[1..] else q)
            && (e == PurgeEntry(true) ==> q != [] && s.phase.job == q[0])
            && (e == ReplayRound(false) && q != [] ==> s'.phase.Working? && s'.phase.job == q[0])
  {
    ReachableOldest(c, before, s);
    DiskStep(c, s, e);
    if e == AppendEntry(true) {
      CommitGoesLast(s.disk, s.nextSeq, s.phase.job);
    } else if e == PurgeEntry(true) {
      HeadIsFirst(s.disk.queued, s.phase.at);
    } else if e == ReplayRound(false) && s.disk.queued.Keys != {} {
      EntriesPurge(s.disk.queued);
    }
  }

  /** What a step does to the disk, and what a replay round takes from it. */
  lemma DiskStep(c: Config, s: Sys, e: Event)
    requires CanStep(c, s, e)
    ensures After(c, s, e).disk == if e == AppendEntry(true) then Committed(s.disk, s.nextSeq, s.phase.job)
                                   else if e == PurgeEntry(true) then Purged(s.disk, s.phase.at) else s.disk
    ensures e == ReplayRound(false) && s.disk.queued.Keys != {} ==>
              After(c, s, e).phase.Working? && After(c, s, e).phase.job == s.disk.queued[Least(s.disk.queued.Keys)]
  {
  }

  lemma HeadIsFirst(q: map<nat, Job>, at: nat)
    requires at in q && forall k <- q :: at <= k
    ensures Entries(q) != [] && Entries(q)[0] == q[at] && Entries(q - {at}) == Entries(q)[1..]
  {
    LeastUnique(q.Keys, at);
    EntriesPurge(q);
  }

  /** The channel is one too: a submission goes last if there is room and is refused if not, a take hands over the first, a crash takes all. */
  lemma ChannelIsFifo(c: Config, s: Sys, e: Event)
    requires CanStep(c, s, e)
    ensures var s' := After(c, s, e);
            && s'.channel == (if e.Submit? && |s.channel| < c.depth then s.channel + [Job(|s.accepted|, e.bytes)]
                              else if e == Take then s.channel[1..] else if e == Crash then [] else s.channel)
            && s'.accepted == (if e.Submit? && |s.channel| < c.depth then s.accepted + [e.bytes] else s.accepted)
            && (e == Take ==> s'.phase == Working(s.channel[0], FromQueue, Preparing))
            && (e.Submit? && |s.channel| >= c.depth ==> s' == s)
  {
  }

  // ---------------------------------------------------------------- attempts that fail

  /**
   A queued batch that meets a store error while it is prepared goes to the end of the
   journal, and is lost if the append fails too. Nothing else changes.
   */
  lemma StoreErrorJournals(c: Config, before: seq<Event>, s: Sys, commits: bool) returns (s': Sys)
    requires Faithful(c) && Execute(c, Fresh(), before) == Some(s)
    requires s.phase.Working? && s.phase.source.FromQueue? && s.phase.stage.Preparing?
    requires c.plan(s.attempts, s.phase.job.bytes) == Err(IngestError.Store)
    ensures Execute(c, s, [Decide, AppendEntry(commits)]) == Some(s') && s'.phase == Idle && s.phase.job.id < |s.fate|
    ensures s'.fate == s.fate[s.phase.job.id := if commits then Journaled else LostAppend]
    ensures Entries(s'.disk.queued) == Entries(s.disk.queued) + if commits then [s.phase.job] else []
    ensures s'.db == s.db && s'.channel == s.channel && s'.accepted == s.accepted
  {
    ReachableOldest(c, before, s);
    s' := StoreErrorSteps(c, s, commits);
    CommitGoesLast(s.disk, s.nextSeq, s.phase.job);
  }

  lemma StoreErrorSteps(c: Config, s: Sys, commits: bool) returns (s': Sys)
    requires s.phase.Working? && s.phase.source.FromQueue? && s.phase.stage.Preparing? && s.phase.job.id < |s.fate|
    requires c.plan(s.attempts, s.phase.job.bytes) == Err(IngestError.Store)
    ensures Execute(c, s, [Decide, AppendEntry(commits)]) == Some(s') && s'.phase == Idle
    ensures s'.fate == s.fate[s.phase.job.id := if commits then Journaled else LostAppend]
    ensures s'.disk == if commits then Committed(s.disk, s.nextSeq, s.phase.job) else s.disk
    ensures s'.db == s.db && s'.channel == s.channel && s'.accepted == s.accepted
  {
    var held := After(c, s, Decide);
    s' := After(c, held, AppendEntry(commits));
    ExecuteSplit(c, s, [Decide], [AppendEntry(commits)]);
    ExecuteOne(c, s, Decide);
    ExecuteOne(c, held, AppendEntry(commits));
    assert [Decide] + [AppendEntry(commits)] == [Decide, AppendEntry(commits)];
  }

  /** Any other error drops a queued batch: it is refused, and nothing is written anywhere. */
  lemma OtherErrorDrops(c: Config, s: Sys)
    requires s.phase.Working? && s.phase.source.FromQueue? && s.phase.stage.Preparing? && s.phase.job.id < |s.fate|
    requires c.plan(s.attempts, s.phase.job.bytes).Err? && c.plan(s.attempts, s.phase.job.bytes).error != IngestError.Store
    ensures Execute(c, s, [Decide]) == Some(s.(attempts := s.attempts + 1, phase := Idle, fate := s.fate[s.phase.job.id := Rejected]))
  {
    ExecuteOne(c, s, Decide);
  }

  /** Any error at all leaves a replayed batch where it is, journaled, and ends the replay. */
  lemma ReplayedErrorHalts(c: Config, s: Sys)
    requires s.phase.Working? && s.phase.source.FromJournal? && s.phase.stage.Preparing? && c.plan(s.attempts, s.phase.job.bytes).Err?
    ensures Execute(c, s, [Decide]) == Some(s.(attempts := s.attempts + 1, phase := Idle))
  {
    ExecuteOne(c, s, Decide);
  }

  /** The process is replaying its journal. */
  ghost predicate InReplay(p: Phase) {
    p.Replaying? || p.Purging? || (p.Working? && p.source.FromJournal?)
  }

  /** Nothing is left, or something fails: the read, the attempt, a write of it, or the purge. */
  ghost predicate EndsReplay(c: Config, s: Sys, e: Event) {
    || e == ReplayRound(true) || (e.ReplayRound? && s.disk.queued.Keys == {})
    || (e == Decide && s.phase.Working? && c.plan(s.attempts, s.phase.job.bytes).Err?)
    || e == InsertEvents(false) || e == InsertLlm(false) || e == PurgeEntry(false)
  }

  /** A replay begins at a start and only there, and ends, short of a crash, at the first thing that fails or with nothing left. */
  lemma ReplayEndsIff(c: Config, s: Sys, e: Event)
    requires CanStep(c, s, e) && e != Crash
    ensures InReplay(s.phase) ==> (InReplay(After(c, s, e).phase) <==> !EndsReplay(c, s, e))
    ensures InReplay(s.phase) && EndsReplay(c, s, e) ==> After(c, s, e).phase == Idle && After(c, s, e).disk == s.disk && After(c, s, e).fate == s.fate
    ensures !InReplay(s.phase) ==> (InReplay(After(c, s, e).phase) <==> e == Start)
  {
  }

  // ---------------------------------------------------------------- an entry nobody can admit

  /** No attempt from the n-th on admits the batch, whatever earlier ones did. */
  ghost predicate RefusedFrom(c: Config, n: nat, b: Bytes) {
    forall m :: m >= n ==> c.plan(m, b).Err?
  }

  /** A journaled batch that no later attempt admits, and is not being purged. */
  ghost predicate Pinned(c: Config, s: Sys, at: nat, job: Job) {
    && at in s.disk.queued && s.disk.queued[at] == job && RefusedFrom(c, s.attempts, job.bytes)
    && CounterAbove(s.disk) && Recovered(s.disk) <= s.nextSeq
    && (s.phase.Purging? ==> s.phase.at != at)
    && (s.phase.Working? && s.phase.source == FromJournal(at) ==> s.phase.job == job && s.phase.stage.Preparing?)
  }

  lemma StepPinned(c: Config, s: Sys, e: Event, at: nat, job: Job)
    requires Pinned(c, s, at, job) && CanStep(c, s, e)
    ensures Pinned(c, After(c, s, e), at, job)
  {
    PinnedOnDisk(c, s, e, at, job);
    PinnedInHand(c, s, e, at, job);
  }

  lemma PinnedOnDisk(c: Config, s: Sys, e: Event, at: nat, job: Job)
    requires Pinned(c, s, at, job) && CanStep(c, s, e)
    ensures var s' := After(c, s, e);
            && at in s'.disk.queued && s'.disk.queued[at] == job && s'.attempts >= s.attempts
            && CounterAbove(s'.disk) && Recovered(s'.disk) <= s'.nextSeq
  {
    DiskStep(c, s, e);
  }

  lemma PinnedInHand(c: Config, s: Sys, e: Event, at: nat, job: Job)
    requires Pinned(c, s, at, job) && CanStep(c, s, e)
    ensures var p := After(c, s, e).phase;
            && (p.Purging? ==> p.at != at)
            && (p.Working? && p.source == FromJournal(at) ==> p.job == job && p.stage.Preparing?)
  {
    assert e == Decide ==> c.plan(s.attempts, job.bytes).Err?;
  }

  /** An entry that no later attempt admits stays journaled for good. */
  lemma {:induction false} RefusedEntryStays(c: Config, s: Sys, events: seq<Event>, s': Sys, at: nat, job: Job)
    requires Pinned(c, s, at, job) && Execute(c, s, events) == Some(s')
    ensures Pinned(c, s', at, job)
    decreases |events|
  {
    if events != [] {
      StepPinned(c, s, events[0], at, job);
      RefusedEntryStays(c, After(c, s, events[0]), events[1..], s', at, job);
    }
  }

  /** Such an entry at the head, with everything queued behind it. */
  ghost predicate HeadPinned(c: Config, s: Sys, q: map<nat, Job>, at: nat) {
    && at in q && Pinned(c, s, at, q[at])
    && (forall k <- q :: k in s.disk.queued && s.disk.queued[k] == q[k])
    && (forall k <- s.disk.queued :: at <= k)
    && NotPast(s.phase, at)
  }

  /** The replay holds no entry but `at`. */
  ghost predicate NotPast(p: Phase, at: nat) {
    !p.Purging? && (p.Working? && p.source.FromJournal? ==> p.source.at == at)
  }

  /** A step that leaves the queue as it is. */
  lemma HeadPinnedSame(c: Config, s: Sys, s': Sys, q: map<nat, Job>, at: nat)
    requires HeadPinned(c, s, q, at) && s'.disk.queued == s.disk.queued && NotPast(s'.phase, at) && Pinned(c, s', at, q[at])
    ensures HeadPinned(c, s', q, at)
  {
  }

  lemma HeadPinnedAppend(c: Config, s: Sys, q: map<nat, Job>, at: nat)
    requires HeadPinned(c, s, q, at) && s.phase.Journaling? && Pinned(c, After(c, s, AppendEntry(true)), at, q[at])
    ensures HeadPinned(c, After(c, s, AppendEntry(true)), q, at)
  {
    assert at in s.disk.queued;
  }

  lemma StepNotPast(c: Config, s: Sys, e: Event, at: nat)
    requires NotPast(s.phase, at) && at in s.disk.queued && (forall k <- s.disk.queued :: at <= k) && CanStep(c, s, e)
    requires s.phase.Working? && s.phase.source.FromJournal? ==> s.phase.stage.Preparing?
    ensures NotPast(After(c, s, e).phase, at) && (e != AppendEntry(true) ==> After(c, s, e).disk.queued == s.disk.queued)
  {
    match e
    case ReplayRound(_) => LeastUnique(s.disk.queued.Keys, at);
    case _ =>
  }

  lemma StepHeadPinned(c: Config, s: Sys, e: Event, q: map<nat, Job>, at: nat)
    requires HeadPinned(c, s, q, at) && CanStep(c, s, e)
    ensures HeadPinned(c, After(c, s, e), q, at)
  {
    StepPinned(c, s, e, at, q[at]);
    if e == AppendEntry(true) {
      HeadPinnedAppend(c, s, q, at);
    } else {
      StepNotPast(c, s, e, at);
      HeadPinnedSame(c, s, After(c, s, e), q, at);
    }
  }

  /**
   One refused entry at the head of the journal blocks every entry behind it, whatever
   the node does afterwards: replay stops at the first error of any kind.
   */
  lemma {:induction false} RefusedHeadBlocks(c: Config, s: Sys, events: seq<Event>, s': Sys, q: map<nat, Job>, at: nat)
    requires HeadPinned(c, s, q, at) && Execute(c, s, events) == Some(s')
    ensures forall k <- q :: k in s'.disk.queued && s'.disk.queued[k] == q[k]
    decreases |events|
  {
    if events != [] {
      StepHeadPinned(c, s, events[0], q, at);
      RefusedHeadBlocks(c, After(c, s, events[0]), events[1..], s', q, at);
    }
  }

  // ---------------------------------------------------------------- draining

  function MintEvents(lands: seq<bool>): seq<Event> {
    if lands == [] then [] else [MintOne(lands[0])] + MintEvents(lands[1..])
  }

  /** The mint steps of one attempt, taken together, are the batch's mint. */
  lemma {:induction false} MintsLand(c: Config, s: Sys, lands: seq<bool>) returns (s': Sys)
    requires s.phase.Working? && s.phase.stage.Minting? && s.phase.stage.done + |lands| == |s.phase.stage.plan.attestations|
    ensures Execute(c, s, MintEvents(lands)) == Some(s')
    ensures s' == s.(db := s.db.(attestations := Mint(s.db.attestations, s.phase.stage.plan.attestations[s.phase.stage.done..], lands)),
                     phase := s.phase.(stage := Minting(s.phase.stage.plan, |s.phase.stage.plan.attestations|)))
    decreases |lands|
  {
    if lands == [] {
      s' := s;
    } else {
      var first := MintOne(lands[0]);
      var m := After(c, s, first);
      s' := MintsLand(c, m, lands[1..]);
      assert MintEvents(lands)[1..] == MintEvents(lands[1..]);
      var todo := s.phase.stage.plan.attestations[s.phase.stage.done..];
      assert todo[1..] == s.phase.stage.plan.attestations[s.phase.stage.done + 1..];
    }
  }

  /** The steps of one handler call whose writes go as `faults` says. */
  function HandlerEvents(p: Prepared, faults: Faults): seq<Event> {
    [Decide] + MintEvents(Landing(faults, |p.outputs|)) + [InsertEvents(faults.eventsLand)]
    + if faults.eventsLand then [InsertLlm(faults.llmLand)] else []
  }

  /** A call that succeeds persists a queued batch; a replayed one is persisted by its purge. */
  function Settled(s: Sys, done: bool): seq<Fate>
    requires s.phase.Working?
  {
    if done && s.phase.source.FromQueue? && s.phase.job.id < |s.fate| then s.fate[s.phase.job.id := Persisted] else s.fate
  }

  /**
   The machine's small steps compose to the handler's specification: run without a
   crash between them, they leave the tables as the whole call does, and the persister
   goes on to purge, journal or halt as the call's result says.
   */
  lemma StepsMakeTheCall(wire: Wire, depth: nat, world: nat -> World, s: Sys, p: Prepared, faults: Faults) returns (s': Sys)
    requires s.phase.Working? && s.phase.stage.Preparing? && Prepare(wire, world(s.attempts), Full, s.phase.job.bytes) == Ok(p)
    ensures Execute(NodeConfig(wire, depth, world), s, HandlerEvents(p, faults)) == Some(s')
    ensures s'.db == Written(s.db, p, faults).0
    ensures s.phase.source.FromQueue? ==> s'.phase == if Written(s.db, p, faults).1 then Idle else Journaling(s.phase.job)
    ensures s.phase.source.FromJournal? ==>
              s'.phase == if Written(s.db, p, faults).1 then Purging(s.phase.job, s.phase.source.at) else Idle
    ensures s'.fate == Settled(s, Written(s.db, p, faults).1) && s'.disk == s.disk && s'.channel == s.channel
    ensures s'.sendersOpen == s.sendersOpen && s'.accepted == s.accepted
  {
    var c := NodeConfig(wire, depth, world);
    var plan := Plan(Rows(p), LlmRows(p), Attestations(p));
    NodePlans(wire, depth, world, s.attempts, s.phase.job.bytes, p);
    s' := PlanRuns(c, s, plan, Landing(faults, |p.outputs|), faults);
    WrittenIs(s.db, p, faults);
    assert HandlerEvents(p, faults) == [Decide] + MintEvents(Landing(faults, |p.outputs|)) + Inserts(faults);
  }

  lemma NodePlans(wire: Wire, depth: nat, world: nat -> World, n: nat, b: Bytes, p: Prepared)
    requires Prepare(wire, world(n), Full, b) == Ok(p)
    ensures NodeConfig(wire, depth, world).plan(n, b) == Ok(Plan(Rows(p), LlmRows(p), Attestations(p)))
  {
    assert NodeConfig(wire, depth, world).plan(n, b) == PlanOf(Prepare(wire, world(n), Full, b));
  }

  lemma WrittenIs(db: Db, p: Prepared, faults: Faults)
    ensures Written(db, p, faults) ==
            (Db(if faults.eventsLand then InsertRows(db.events, Rows(p)) else db.events,
                if faults.eventsLand && faults.llmLand then db.llmCalls + LlmRows(p) else db.llmCalls,
                Mint(db.attestations, Attestations(p), Landing(faults, |p.outputs|))),
             faults.eventsLand && faults.llmLand)
  {
  }

  lemma PlanRuns(c: Config, s: Sys, plan: Plan, lands: seq<bool>, faults: Faults) returns (s': Sys)
    requires s.phase.Working? && s.phase.stage.Preparing? && c.plan(s.attempts, s.phase.job.bytes) == Ok(plan)
    requires |lands| == |plan.attestations|
    ensures Execute(c, s, [Decide] + MintEvents(lands) + Inserts(faults)) == Some(s')
    ensures s'.db == Db(if faults.eventsLand then InsertRows(s.db.events, plan.rows) else s.db.events,
                        if faults.eventsLand && faults.llmLand then s.db.llmCalls + plan.llm else s.db.llmCalls,
                        Mint(s.db.attestations, plan.attestations, lands))
    ensures var done := faults.eventsLand && faults.llmLand;
            s'.phase == if s.phase.source.FromQueue? then (if done then Idle else Journaling(s.phase.job))
                        else (if done then Purging(s.phase.job, s.phase.source.at) else Idle)
    ensures s'.fate == Settled(s, faults.eventsLand && faults.llmLand) && s'.disk == s.disk && s'.channel == s.channel
    ensures s'.sendersOpen == s.sendersOpen && s'.accepted == s.accepted
  {
    var admitted := After(c, s, Decide);
    var minted := MintsLand(c, admitted, lands);
    assert plan.attestations[0..] == plan.attestations;
    ExecuteSplit(c, s, [Decide], MintEvents(lands));
    ExecuteOne(c, s, Decide);
    s' := InsertsMakeTheRest(c, minted, faults);
    ExecuteSplit(c, s, [Decide] + MintEvents(lands), Inserts(faults));
  }

  function Inserts(faults: Faults): seq<Event> {
    [InsertEvents(faults.eventsLand)] + if faults.eventsLand then [InsertLlm(faults.llmLand)] else []
  }

  lemma InsertsMakeTheRest(c: Config, s: Sys, faults: Faults) returns (s': Sys)
    requires s.phase.Working? && s.phase.stage.Minting? && s.phase.stage.done == |s.phase.stage.plan.attestations|
    ensures Execute(c, s, Inserts(faults)) == Some(s')
    ensures var p := s.phase.stage.plan;
            s'.db == s.db.(events := if faults.eventsLand then InsertRows(s.db.events, p.rows) else s.db.events,
                           llmCalls := if faults.eventsLand && faults.llmLand then s.db.llmCalls + p.llm else s.db.llmCalls)
    ensures var done := faults.eventsLand && faults.llmLand;
            s'.phase == if s.phase.source.FromQueue? then (if done then Idle else Journaling(s.phase.job))
                        else (if done then Purging(s.phase.job, s.phase.source.at) else Idle)
    ensures s'.fate == Settled(s, faults.eventsLand && faults.llmLand) && s'.disk == s.disk && s'.channel == s.channel
    ensures s'.sendersOpen == s.sendersOpen && s'.accepted == s.accepted
  {
    var first := InsertEvents(faults.eventsLand);
    s' := After(c, s, first);
    ExecuteOne(c, s, first);
    if faults.eventsLand {
      var m, second := s', InsertLlm(faults.llmLand);
      s' := After(c, m, second);
      ExecuteSplit(c, s, [first], [second]);
      ExecuteOne(c, m, second);
    } else {
      assert Inserts(faults) == [first];
    }
  }

  // ---------------------------------------------------------------- shutting down

  lemma {:induction false} MintsDoNotCrash(lands: seq<bool>)
    ensures Crash !in MintEvents(lands)
  {
    if lands != [] {
      MintsDoNotCrash(lands[1..]);
    }
  }

  /** The next queued batch, worked through: stored, journaled or dropped. */
  lemma FinishOne(c: Config, s: Sys) returns (events: seq<Event>, s': Sys)
    requires s.phase.Idle? && s.channel != []
    ensures Execute(c, s, events) == Some(s') && Crash !in events
    ensures s'.phase.Idle? && s'.channel == s.channel[1..] && s'.sendersOpen == s.sendersOpen && s'.accepted == s.accepted
  {
    var taken := After(c, s, Take);
    var rest;
    rest, s' := FinishTaken(c, taken);
    events := [Take] + rest;
    ExecuteSplit(c, s, [Take], rest);
    ExecuteOne(c, s, Take);
  }

  lemma FinishTaken(c: Config, s: Sys) returns (events: seq<Event>, s': Sys)
    requires s.phase.Working? && s.phase.source.FromQueue? && s.phase.stage.Preparing?
    ensures Execute(c, s, events) == Some(s') && Crash !in events
    ensures s'.phase.Idle? && s'.channel == s.channel && s'.sendersOpen == s.sendersOpen && s'.accepted == s.accepted
  {
    var r := c.plan(s.attempts, s.phase.job.bytes);
    if r.Ok? {
      var lands := seq(|r.value.attestations|, i => true);
      var good := Faults((i: nat) => true, true, true);
      s' := PlanRuns(c, s, r.value, lands, good);
      MintsDoNotCrash(lands);
      events := [Decide] + MintEvents(lands) + Inserts(good);
    } else {
      var decided := After(c, s, Decide);
      ExecuteOne(c, s, Decide);
      if decided.phase.Idle? {
        events, s' := [Decide], decided;
      } else {
        s' := After(c, decided, AppendEntry(true));
        events := [Decide] + [AppendEntry(true)];
        ExecuteSplit(c, s, [Decide], [AppendEntry(true)]);
        ExecuteOne(c, decided, AppendEntry(true));
      }
    }
  }

  /** Once its senders are closed, an idle persister can work through its channel and exit without a crash. */
  lemma {:induction false} ShutdownFinishes(c: Config, s: Sys) returns (events: seq<Event>, s': Sys)
    requires s.phase.Idle?
    ensures Execute(c, s, [CloseSenders] + events) == Some(s') && Crash !in events
    ensures s'.phase.Exited? && s'.accepted == s.accepted
  {
    var closed := After(c, s, CloseSenders);
    events, s' := DrainChannel(c, closed);
    ExecuteSplit(c, s, [CloseSenders], events);
    ExecuteOne(c, s, CloseSenders);
  }

  lemma {:induction false} DrainChannel(c: Config, s: Sys) returns (events: seq<Event>, s': Sys)
    requires s.phase.Idle? && !s.sendersOpen
    ensures Execute(c, s, events) == Some(s') && Crash !in events
    ensures s'.phase.Exited? && s'.accepted == s.accepted
    decreases |s.channel|
  {
    if s.channel == [] {
      events, s' := [Exit], After(c, s, Exit);
      ExecuteOne(c, s, Exit);
    } else {
      var first, m := FinishOne(c, s);
      var rest;
      rest, s' := DrainChannel(c, m);
      events := first + rest;
      ExecuteSplit(c, s, first, rest);
    }
  }

  /** Nothing is accepted between a close of the senders and the next start. */
  lemma {:induction false} ClosedAcceptsNothing(c: Config, s: Sys, events: seq<Event>, s': Sys)
    requires !s.sendersOpen && Execute(c, s, events) == Some(s') && Start !in events
    ensures !s'.sendersOpen && s'.accepted == s.accepted
    decreases |events|
  {
    if events != [] {
      assert events[0] in events && forall e <- events[1..] :: e in events;
      ClosedStep(c, s, events[0]);
      ClosedAcceptsNothing(c, After(c, s, events[0]), events[1..], s');
    }
  }

  lemma ClosedStep(c: Config, s: Sys, e: Event)
    requires CanStep(c, s, e) && e != Start && (!s.sendersOpen || e == CloseSenders)
    ensures !After(c, s, e).sendersOpen && After(c, s, e).accepted == s.accepted
  {
  }

  /** From an admitted batch to its events being in the store. */
  lemma StoreEvents(c: Config, s: Sys) returns (events: seq<Event>, s': Sys)
    requires s.phase.Working? && s.phase.stage.Preparing? && c.plan(s.attempts, s.phase.job.bytes).Ok?
    ensures Execute(c, s, events) == Some(s')
    ensures var p := c.plan(s.attempts, s.phase.job.bytes).value;
            && s'.phase == s.phase.(stage := EventsStored(p))
            && s'.db.events == InsertRows(s.db.events, p.rows) && s'.db.llmCalls == s.db.llmCalls
    ensures s'.landed == s.landed + {s.phase.job}
    ensures (s'.disk, s'.nextSeq, s'.channel, s'.accepted, s'.fate, s'.llmLog) == (s.disk, s.nextSeq, s.channel, s.accepted, s.fate, s.llmLog)
    ensures s'.attempts == s.attempts + 1
  {
    var admitted := After(c, s, Decide);
    var lands := seq(|admitted.phase.stage.plan.attestations|, i => true);
    var minted := MintsLand(c, admitted, lands);
    var mints := MintEvents(lands);
    s' := After(c, minted, InsertEvents(true));
    events := [Decide] + mints + [InsertEvents(true)];
    ExecuteSplit(c, s, [Decide] + mints, [InsertEvents(true)]);
    ExecuteSplit(c, s, [Decide], mints);
    ExecuteOne(c, s, Decide);
    ExecuteOne(c, minted, InsertEvents(true));
  }

  lemma ExecuteOne(c: Config, s: Sys, e: Event)
    requires CanStep(c, s, e)
    ensures Execute(c, s, [e]) == Some(After(c, s, e))
  {
  }

  /** A replayed batch that is admitted can reach its purge. */
  lemma HandleReplayed(c: Config, s: Sys) returns (events: seq<Event>, s': Sys)
    requires s.phase.Working? && s.phase.source.FromJournal? && s.phase.stage.Preparing? && c.plan(s.attempts, s.phase.job.bytes).Ok?
    ensures Execute(c, s, events) == Some(s')
    ensures s'.phase == Purging(s.phase.job, s.phase.source.at) && s'.disk == s.disk && s'.attempts == s.attempts + 1
    ensures var p := c.plan(s.attempts, s.phase.job.bytes).value;
            s'.db.events == InsertRows(s.db.events, p.rows) && s'.db.llmCalls == s.db.llmCalls + p.llm
  {
    var first, stored := StoreEvents(c, s);
    s' := After(c, stored, InsertLlm(true));
    events := first + [InsertLlm(true)];
    ExecuteSplit(c, s, first, [InsertLlm(true)]);
    ExecuteOne(c, stored, InsertLlm(true));
  }

  /** One round of replay that succeeds removes the oldest entry and nothing else. */
  lemma ReplayOne(c: Config, s: Sys) returns (events: seq<Event>, s': Sys)
    requires s.phase.Replaying? && s.disk.queued.Keys != {}
    requires c.plan(s.attempts, s.disk.queued[Least(s.disk.queued.Keys)].bytes).Ok?
    ensures Execute(c, s, events) == Some(s')
    ensures s'.phase.Replaying? && s'.disk == Purged(s.disk, Least(s.disk.queued.Keys)) && s'.attempts == s.attempts + 1
  {
    var taken := After(c, s, ReplayRound(false));
    var work, handled := HandleReplayed(c, taken);
    s' := After(c, handled, PurgeEntry(true));
    events := [ReplayRound(false)] + work + [PurgeEntry(true)];
    ExecuteSplit(c, s, [ReplayRound(false)] + work, [PurgeEntry(true)]);
    ExecuteSplit(c, s, [ReplayRound(false)], work);
    ExecuteOne(c, s, ReplayRound(false));
    ExecuteOne(c, handled, PurgeEntry(true));
  }

  /** The journal's batches are admitted one after the other by later and later attempts. */
  ghost predicate Drainable(c: Config, n: nat, jobs: seq<Job>)
    decreases |jobs|
  {
    jobs == [] || exists m :: m >= n && c.plan(m, jobs[0].bytes).Ok? && Drainable(c, m + 1, jobs[1..])
  }

  /** An attempt that comes to nothing: the head is tried and the process restarts. */
  lemma WasteOne(c: Config, s: Sys) returns (events: seq<Event>, s': Sys)
    requires s.phase.Replaying? && s.disk.queued.Keys != {}
    ensures Execute(c, s, events) == Some(s') && s'.phase.Replaying? && s'.disk == s.disk && s'.attempts == s.attempts + 1
  {
    var taken := After(c, s, ReplayRound(false));
    var decided := After(c, taken, Decide);
    var down := After(c, decided, Crash);
    s' := After(c, down, Start);
    events := [ReplayRound(false)] + ([Decide] + ([Crash] + [Start]));
    ExecuteSplit(c, s, [ReplayRound(false)], [Decide] + ([Crash] + [Start]));
    ExecuteOne(c, s, ReplayRound(false));
    ExecuteSplit(c, taken, [Decide], [Crash] + [Start]);
    ExecuteOne(c, taken, Decide);
    ExecuteSplit(c, decided, [Crash], [Start]);
    ExecuteOne(c, decided, Crash);
    ExecuteOne(c, down, Start);
  }

  lemma {:induction false} WasteUntil(c: Config, s: Sys, m: nat) returns (events: seq<Event>, s': Sys)
    requires s.phase.Replaying? && s.disk.queued.Keys != {} && s.attempts <= m
    ensures Execute(c, s, events) == Some(s') && s'.phase.Replaying? && s'.disk == s.disk && s'.attempts == m
    decreases m - s.attempts
  {
    if s.attempts == m {
      events, s' := [], s;
    } else {
      var first, one := WasteOne(c, s);
      var rest;
      rest, s' := WasteUntil(c, one, m);
      events := first + rest;
      ExecuteSplit(c, s, first, rest);
    }
  }

  lemma {:induction false} ReplayAll(c: Config, s: Sys) returns (events: seq<Event>, s': Sys)
    requires s.phase.Replaying? && Drainable(c, s.attempts, Entries(s.disk.queued))
    ensures Execute(c, s, events) == Some(s') && s'.disk.queued.Keys == {}
    decreases |s.disk.queued.Keys|
  {
    if s.disk.queued.Keys == {} {
      events, s' := [], s;
    } else {
      var at := Least(s.disk.queued.Keys);
      var jobs := Entries(s.disk.queued);
      EntriesPurge(s.disk.queued);
      var m :| m >= s.attempts && c.plan(m, jobs[0].bytes).Ok? && Drainable(c, m + 1, jobs[1..]);
      var wait, ready := WasteUntil(c, s, m);
      var first, done := ReplayOne(c, ready);
      assert done.disk.queued.Keys == s.disk.queued.Keys - {at};
      var rest;
      rest, s' := ReplayAll(c, done);
      events := wait + (first + rest);
      ExecuteSplit(c, s, wait, first + rest);
      ExecuteSplit(c, ready, first, rest);
    }
  }

  lemma {:induction false} DropLast(c: Config, n: nat, jobs: seq<Job>, last: Job)
    requires Drainable(c, n, jobs + [last])
    ensures Drainable(c, n, jobs)
    decreases |jobs|
  {
    if jobs != [] {
      var all := jobs + [last];
      assert all[0] == jobs[0] && all[1..] == jobs[1..] + [last];
      var m :| m >= n && c.plan(m, all[0].bytes).Ok? && Drainable(c, m + 1, all[1..]);
      DropLast(c, m + 1, jobs[1..], last);
    }
  }

  /** The entry in hand has been admitted by this attempt. */
  ghost predicate HeadAdmitted(p: Phase) {
    p.Purging? || (p.Working? && p.source.FromJournal? && !p.stage.Preparing?)
  }

  /** What must still be admitted before the journal can be empty. */
  ghost predicate StillDrainable(c: Config, s: Sys) {
    var jobs := Entries(s.disk.queued);
    Drainable(c, s.attempts, if HeadAdmitted(s.phase) && jobs != [] then jobs[1..] else jobs)
  }

  lemma DrainableEarlier(c: Config, n: nat, m: nat, jobs: seq<Job>)
    requires n <= m && Drainable(c, m, jobs)
    ensures Drainable(c, n, jobs)
  {
    if jobs != [] {
      var k :| k >= m && c.plan(k, jobs[0].bytes).Ok? && Drainable(c, k + 1, jobs[1..]);
      assert k >= n;
    }
  }

  lemma DropFirst(c: Config, n: nat, jobs: seq<Job>)
    requires jobs != [] && Drainable(c, n, jobs)
    ensures Drainable(c, n, jobs[1..])
  {
    var m :| m >= n && c.plan(m, jobs[0].bytes).Ok? && Drainable(c, m + 1, jobs[1..]);
    DrainableEarlier(c, n, m + 1, jobs[1..]);
  }

  /** A step cannot make a journal drainable that was not. */
  lemma StepStillDrainable(c: Config, before: seq<Event>, s: Sys, e: Event)
    requires Faithful(c) && Execute(c, Fresh(), before) == Some(s) && CanStep(c, s, e) && StillDrainable(c, After(c, s, e))
    ensures StillDrainable(c, s)
  {
    if e == AppendEntry(true) || e == PurgeEntry(true) {
      DiskStillDrainable(c, before, s, e);
    } else if e == Decide {
      DecideStillDrainable(c, before, s);
    } else {
      OthersStillDrainable(c, s, e);
    }
  }

  lemma DiskStillDrainable(c: Config, before: seq<Event>, s: Sys, e: Event)
    requires Faithful(c) && Execute(c, Fresh(), before) == Some(s) && CanStep(c, s, e) && StillDrainable(c, After(c, s, e))
    requires e == AppendEntry(true) || e == PurgeEntry(true)
    ensures StillDrainable(c, s)
  {
    JournalIsFifo(c, before, s, e);
    WriteStep(c, s, e);
    if e == AppendEntry(true) {
      DropLast(c, s.attempts, Entries(s.disk.queued), s.phase.job);
    }
  }

  lemma WriteStep(c: Config, s: Sys, e: Event)
    requires CanStep(c, s, e) && (e == AppendEntry(true) || e == PurgeEntry(true))
    ensures After(c, s, e).attempts == s.attempts && !HeadAdmitted(After(c, s, e).phase)
    ensures HeadAdmitted(s.phase) <==> e == PurgeEntry(true)
  {
  }

  lemma DecideStillDrainable(c: Config, before: seq<Event>, s: Sys)
    requires Faithful(c) && Execute(c, Fresh(), before) == Some(s) && CanStep(c, s, Decide) && StillDrainable(c, After(c, s, Decide))
    ensures StillDrainable(c, s)
  {
    DecideStep(c, s);
    if HeadAdmitted(After(c, s, Decide).phase) {
      ReachableOldest(c, before, s);
      HeadIsFirst(s.disk.queued, s.phase.source.at);
    }
    DecidedDrainable(c, s.attempts, Entries(s.disk.queued), HeadAdmitted(After(c, s, Decide).phase));
  }

  lemma DecidedDrainable(c: Config, n: nat, jobs: seq<Job>, admitted: bool)
    requires Drainable(c, n + 1, if admitted && jobs != [] then jobs[1..] else jobs)
    requires admitted ==> jobs != [] && c.plan(n, jobs[0].bytes).Ok?
    ensures Drainable(c, n, jobs)
  {
    if !admitted {
      DrainableEarlier(c, n, n + 1, jobs);
    }
  }

  lemma DecideStep(c: Config, s: Sys)
    requires CanStep(c, s, Decide)
    ensures var s' := After(c, s, Decide);
            && s'.disk == s.disk && s'.attempts == s.attempts + 1 && !HeadAdmitted(s.phase)
            && (HeadAdmitted(s'.phase) ==> s.phase.source.FromJournal? && c.plan(s.attempts, s.phase.job.bytes).Ok?)
  {
  }

  lemma OtherStep(c: Config, s: Sys, e: Event)
    requires CanStep(c, s, e) && e != AppendEntry(true) && e != PurgeEntry(true) && e != Decide
    ensures var s' := After(c, s, e); s'.disk == s.disk && s'.attempts == s.attempts && (HeadAdmitted(s'.phase) ==> HeadAdmitted(s.phase))
  {
  }

  lemma OthersStillDrainable(c: Config, s: Sys, e: Event)
    requires CanStep(c, s, e) && e != AppendEntry(true) && e != PurgeEntry(true) && e != Decide && StillDrainable(c, After(c, s, e))
    ensures StillDrainable(c, s)
  {
    OtherStep(c, s, e);
    var jobs := Entries(s.disk.queued);
    if HeadAdmitted(s.phase) && !HeadAdmitted(After(c, s, e).phase) && jobs != [] {
      DropFirst(c, s.attempts, jobs);
    }
  }

  lemma {:induction false} EmptiedWasDrainable(c: Config, before: seq<Event>, s: Sys, events: seq<Event>, s': Sys)
    requires Faithful(c) && Execute(c, Fresh(), before) == Some(s) && Execute(c, s, events) == Some(s') && s'.disk.queued.Keys == {}
    ensures StillDrainable(c, s)
    decreases |events|
  {
    if events == [] {
      assert Entries(s.disk.queued) == [];
    } else {
      var m := After(c, s, events[0]);
      ExecuteSplit(c, Fresh(), before, [events[0]]);
      ExecuteOne(c, s, events[0]);
      EmptiedWasDrainable(c, before + [events[0]], m, events[1..], s');
      StepStillDrainable(c, before, s, events[0]);
    }
  }

  ghost predicate Empties(c: Config, s: Sys, events: seq<Event>) {
    match Execute(c, s, events)
    case Some(s') => s'.disk.queued.Keys == {}
    case None => false
  }

  /**
   A stopped node can drain its journal exactly when its journaled batches, oldest first,
   are admitted by later and later attempts. Nothing is asked of the attempts before.
   */
  lemma CanDrainIff(c: Config, before: seq<Event>, s: Sys)
    requires Faithful(c) && Execute(c, Fresh(), before) == Some(s) && s.phase.Down?
    ensures (exists events :: Empties(c, s, events)) <==> Drainable(c, s.attempts, Entries(s.disk.queued))
  {
    if Drainable(c, s.attempts, Entries(s.disk.queued)) {
      var up := After(c, s, Start);
      var rest, s' := ReplayAll(c, up);
      ExecuteSplit(c, s, [Start], rest);
      ExecuteOne(c, s, Start);
      assert Empties(c, s, [Start] + rest);
    }
    if events :| Empties(c, s, events) {
      EmptiedWasDrainable(c, before, s, events, Execute(c, s, events).value);
    }
  }

  /** From here on an attempt's verdict depends on the batch alone: no outage, no change of keys or rosters. */
  ghost predicate SettledFrom(c: Config, n: nat) {
    forall m, b :: m >= n ==> c.plan(m, b).Ok? == c.plan(n, b).Ok?
  }

  lemma {:induction false} SettledDrainable(c: Config, n: nat, m: nat, jobs: seq<Job>)
    requires SettledFrom(c, n) && n <= m
    ensures Drainable(c, m, jobs) <==> forall j <- jobs :: c.plan(n, j.bytes).Ok?
    decreases |jobs|
  {
    if jobs != [] {
      assert forall j :: j in jobs <==> j == jobs[0] || j in jobs[1..];
      if Drainable(c, m, jobs) {
        var k :| k >= m && c.plan(k, jobs[0].bytes).Ok? && Drainable(c, k + 1, jobs[1..]);
        SettledDrainable(c, n, k + 1, jobs[1..]);
      }
      if forall j <- jobs :: c.plan(n, j.bytes).Ok? {
        SettledDrainable(c, n, m + 1, jobs[1..]);
        assert c.plan(m, jobs[0].bytes).Ok?;
      }
    }
  }

  /** Once the world has settled, that is: exactly when the node now admits every journaled batch. */
  lemma SettledDrainsIff(c: Config, before: seq<Event>, s: Sys)
    requires Faithful(c) && Execute(c, Fresh(), before) == Some(s) && s.phase.Down? && SettledFrom(c, s.attempts)
    ensures (exists events :: Empties(c, s, events)) <==> forall j <- Entries(s.disk.queued) :: c.plan(s.attempts, j.bytes).Ok?
  {
    CanDrainIff(c, before, s);
    SettledDrainable(c, s.attempts, s.attempts, Entries(s.disk.queued));
  }

  // ---------------------------------------------------------------- a journal that an outage blocks

  /** The ordinary way into the journal: admitted, then the event insert fails. */
  lemma OutageJournals(c: Config, s: Sys, b: Bytes) returns (events: seq<Event>, s': Sys)
    requires s.phase.Idle? && s.sendersOpen && s.channel == [] && c.depth > 0 && c.plan(s.attempts, b).Ok?
    ensures Execute(c, s, events) == Some(s')
    ensures s'.phase.Idle? && s'.sendersOpen && s'.channel == [] && s'.attempts == s.attempts + 1 && s'.accepted == s.accepted + [b]
    ensures s'.disk == Committed(s.disk, s.nextSeq, Job(|s.accepted|, b)) && s'.nextSeq == s.nextSeq + 1
  {
    var given := After(c, s, Submit(b));
    var taken := After(c, given, Take);
    var work, failed := OutageFails(c, taken);
    s' := After(c, failed, AppendEntry(true));
    events := [Submit(b)] + ([Take] + (work + [AppendEntry(true)]));
    ExecuteSplit(c, s, [Submit(b)], [Take] + (work + [AppendEntry(true)]));
    ExecuteOne(c, s, Submit(b));
    ExecuteSplit(c, given, [Take], work + [AppendEntry(true)]);
    ExecuteOne(c, given, Take);
    ExecuteSplit(c, taken, work, [AppendEntry(true)]);
    ExecuteOne(c, failed, AppendEntry(true));
  }

  lemma OutageFails(c: Config, s: Sys) returns (events: seq<Event>, s': Sys)
    requires s.phase.Working? && s.phase.source.FromQueue? && s.phase.stage.Preparing? && c.plan(s.attempts, s.phase.job.bytes).Ok?
    ensures Execute(c, s, events) == Some(s')
    ensures s' == s.(attempts := s.attempts + 1, db := s'.db, phase := Journaling(s.phase.job))
  {
    var admitted := After(c, s, Decide);
    var lands := seq(|admitted.phase.stage.plan.attestations|, i => true);
    var minted := MintsLand(c, admitted, lands);
    s' := After(c, minted, InsertEvents(false));
    events := [Decide] + (MintEvents(lands) + [InsertEvents(false)]);
    ExecuteSplit(c, s, [Decide], MintEvents(lands) + [InsertEvents(false)]);
    ExecuteOne(c, s, Decide);
    ExecuteSplit(c, admitted, MintEvents(lands), [InsertEvents(false)]);
    ExecuteOne(c, minted, InsertEvents(false));
  }

  /**
   A run from a fresh node to a blocked journal: two batches are admitted and journaled in
   an outage, the first is refused from then on, and the second, which every attempt
   would admit, stays behind it for good.
   */
  lemma OutageBlocksJournal(c: Config, first: Bytes, second: Bytes) returns (events: seq<Event>, s: Sys)
    requires c.depth > 0 && c.plan(0, first).Ok? && RefusedFrom(c, 1, first) && forall n :: c.plan(n, second).Ok?
    ensures Execute(c, Fresh(), events) == Some(s)
    ensures s.disk.queued == map[1 := Job(0, first), 2 := Job(1, second)]
    ensures forall more, s' :: Execute(c, s, more) == Some(s') ==> 2 in s'.disk.queued && s'.disk.queued[2] == Job(1, second)
  {
    var up := After(c, Fresh(), Start);
    var idle := After(c, up, ReplayRound(false));
    assert c.plan(1, second).Ok?;
    var one, a := OutageJournals(c, idle, first);
    var two, b := OutageJournals(c, a, second);
    s := b;
    events := [Start] + ([ReplayRound(false)] + (one + two));
    ExecuteSplit(c, Fresh(), [Start], [ReplayRound(false)] + (one + two));
    ExecuteOne(c, Fresh(), Start);
    ExecuteSplit(c, up, [ReplayRound(false)], one + two);
    ExecuteOne(c, up, ReplayRound(false));
    ExecuteSplit(c, idle, one, two);
    assert HeadPinned(c, s, s.disk.queued, 1);
    forall more, s' | Execute(c, s, more) == Some(s') ensures 2 in s'.disk.queued && s'.disk.queued[2] == Job(1, second) {
      assert 2 in s.disk.queued;
      RefusedHeadBlocks(c, s, more, s', s.disk.queued, 1);
    }
  }

  /** A purge notice for a trace of the batch, whose signer the directory knows and does not hold to be a person. */
  ghost predicate Entombs(wire: Wire, dir: Directory, b: Bytes, t: CompleteTrace) {
    && wire.parse(b).Ok? && t in wire.parse(b).value.events
    && dir.tombstone(t.traceId).Notice?
    && dir.record(t.signatureKeyId).Got? && dir.record(t.signatureKeyId).value.Some? && !dir.record(t.signatureKeyId).value.value.isPerson
  }

  lemma TombstoneRefuses(wire: Wire, world: World, b: Bytes, t: CompleteTrace)
    requires Entombs(wire, world.dir, b, t)
    ensures Prepare(wire, world, Full, b).Err?
  {
    var batch := wire.parse(b).value;
    var i :| 0 <= i < |batch.events| && batch.events[i] == t;
    assert RefuseStep(world.dir)(batch.events[i]).Err?;
    assert Traverse(batch.events, RefuseStep(world.dir)).Err?;
    assert Admitted(wire, world, Full, batch).Err?;
  }

  /** On a node: a batch journaled in an outage, a trace of which is purged before it is replayed, blocks the journal. */
  lemma LateTombstoneBlocks(wire: Wire, depth: nat, world: nat -> World, first: Bytes, second: Bytes, t: CompleteTrace)
    returns (events: seq<Event>, s: Sys)
    requires depth > 0 && Prepare(wire, world(0), Full, first).Ok?
    requires forall n: nat :: n >= 1 ==> Entombs(wire, world(n).dir, first, t)
    requires forall n: nat :: Prepare(wire, world(n), Full, second).Ok?
    ensures var c := NodeConfig(wire, depth, world);
            && Execute(c, Fresh(), events) == Some(s)
            && s.disk.queued == map[1 := Job(0, first), 2 := Job(1, second)]
            && forall more, s' :: Execute(c, s, more) == Some(s') ==> 2 in s'.disk.queued && s'.disk.queued[2] == Job(1, second)
  {
    var c := NodeConfig(wire, depth, world);
    forall n: nat | n >= 1 ensures c.plan(n, first).Err? {
      assert Entombs(wire, world(n).dir, first, t);
      TombstoneRefuses(wire, world(n), first, t);
    }
    forall n: nat ensures c.plan(n, second).Ok? {
      assert Prepare(wire, world(n), Full, second).Ok?;
    }
    events, s := OutageBlocksJournal(c, first, second);
  }

  // A node to which this happens: two batches of one trace each, the first purged after the first attempt.

  function SmallTrace(id: string): CompleteTrace {
    CompleteTrace(id, "thought", "agent", "2.7.0", [Component(OtherEvent("event"), 0, map[])], "signature", "writer", None, None,
                  None, None, "federation", None)
  }

  function SmallWire(): Wire {
    Wire((b: Bytes) => Ok(Batch([SmallTrace(if b == [] then "first" else "second")], "generic")),
         (_: Json) => Some([]), (_: Component) => Ok(None), (_: CompleteTrace, _: string, _: Option<string>) => Accepted,
         (_: CompleteTrace) => Some([]), (_: CompleteTrace) => true, (_: AttestationEnvelope) => true)
  }

  function SmallWorld(n: nat): World {
    World(Directory((_: KeyId) => Got(Some("key")), (_: KeyId) => Got(Some(KeyRecord(false, None))),
                    (id: string) => if n >= 1 && id == "first" then Notice("purged") else NoNotice,
                    None, (_: KeyId) => Got(false), (_: KeyId) => Got(None), (k: KeyId) => Got(k), (_: KeyId) => Got({}),
                    (_: KeyId) => Got({}), (_: KeyId) => Got(false), (_: KeyId) => Got(false)),
          (b: Batch) => Some(Scrubbed(b, ScrubOutcome(0, false, "generic", None))), None, 0, "node")
  }

  lemma SmallBatchScreens(n: nat, b: Bytes)
    requires n == 0 || b != []
    ensures var batch := SmallWire().parse(b).value; Screen(SmallWire(), SmallWorld(n), Full, batch) == Ok(SmallWorld(n).scrub(batch).value)
  {
    var wire, world, batch := SmallWire(), SmallWorld(n), SmallWire().parse(b).value;
    var t := batch.events[0];
    assert batch.events == [t] && t.traceId == (if b == [] then "first" else "second");
    assert "first"[0] != "second"[0];
    assert VerifyStep(wire, world.dir)(t).Ok? && RefuseStep(world.dir)(t).Ok?;
    assert Admitted(wire, world, Full, batch).Ok?;
  }

  lemma SmallBatchPrepares(n: nat, b: Bytes)
    requires n == 0 || b != []
    ensures Prepare(SmallWire(), SmallWorld(n), Full, b).Ok?
  {
    var wire, world, batch := SmallWire(), SmallWorld(n), SmallWire().parse(b).value;
    SmallBatchScreens(n, b);
    var t := batch.events[0];
    SmallTracePrepares(wire, world, world.scrub(batch).value.outcome, t);
    assert Beside(batch.events, batch.events) == [(t, Some(t))];
    assert Assemble(wire, world, Full, batch, world.scrub(batch).value).Ok?;
  }

  lemma SmallTracePrepares(wire: Wire, world: World, outcome: ScrubOutcome, t: CompleteTrace)
    requires wire == SmallWire() && t == SmallTrace(t.traceId)
    ensures PrepareTrace(wire, world, Full, outcome, t, Some(t)).Ok?
  {
    var d := Decompose(wire, t);
    assert DecomposeStep(wire, t)(t.components[0]).Ok?;
    assert d.Ok? && |d.value.events| == 1 && d.value.events[0].cohortScope == "federation";
    assert PlacementOf("federation") == Some(Commons);
    assert RowStep(wire, world, Full, outcome)(d.value.events[0]).Ok?;
    assert BuildAttestation(wire, t).Ok?;
  }

  lemma SmallNodeBlocks() returns (events: seq<Event>, s: Sys)
    ensures Execute(NodeConfig(SmallWire(), 1, SmallWorld), Fresh(), events) == Some(s)
    ensures s.disk.queued == map[1 := Job(0, []), 2 := Job(1, [1])]
    ensures forall more, s' :: Execute(NodeConfig(SmallWire(), 1, SmallWorld), s, more) == Some(s') ==> 2 in s'.disk.queued
  {
    SmallBatchPrepares(0, []);
    forall n: nat ensures Prepare(SmallWire(), SmallWorld(n), Full, [1]).Ok? {
      SmallBatchPrepares(n, [1]);
    }
    forall n: nat | n >= 1 ensures Entombs(SmallWire(), SmallWorld(n).dir, [], SmallTrace("first")) {
      assert SmallWire().parse([]).value.events == [SmallTrace("first")];
    }
    events, s := LateTombstoneBlocks(SmallWire(), 1, SmallWorld, [], [1], SmallTrace("first"));
  }

  // ---------------------------------------------------------------- what a crash costs

  /**
   A replayed batch succeeds and its purge does not happen, because the purge fails or the
   process stops first: after a restart it is replayed once more, the event table does not
   change, and its LLM rows are stored a second time.
   */
  lemma UnpurgedRepeats(c: Config, before: seq<Event>, s: Sys, purgeFails: bool) returns (events: seq<Event>, s': Sys)
    requires Faithful(c) && Execute(c, Fresh(), before) == Some(s)
    requires s.phase.Purging? && c.plan(s.attempts, s.phase.job.bytes).Ok?
    ensures Execute(c, s, events) == Some(s') && s'.phase == s.phase && s'.disk == s.disk
    ensures s'.db.events == s.db.events && s'.db.llmCalls == s.db.llmCalls + c.llm(s.phase.job.bytes)
  {
    ReachableOldest(c, before, s);
    var stop, down := StopUnpurged(c, s, purgeFails);
    var again;
    again, s' := ReplayAgain(c, down, s.phase.at);
    var p := c.plan(s.attempts, s.phase.job.bytes).value;
    assert PlanFits(c, p, s.phase.job.bytes);
    assert KeysOf(p.rows) <= s.db.events.Keys;
    ReinsertIsNoop(s.db.events, p.rows);
    events := stop + again;
    ExecuteSplit(c, s, stop, again);
  }

  lemma StopUnpurged(c: Config, s: Sys, purgeFails: bool) returns (events: seq<Event>, s': Sys)
    requires s.phase.Purging?
    ensures Execute(c, s, events) == Some(s') && s'.phase.Down? && s'.disk == s.disk && s'.db == s.db && s'.attempts == s.attempts
  {
    if purgeFails {
      var m := After(c, s, PurgeEntry(false));
      s' := After(c, m, Crash);
      events := [PurgeEntry(false)] + [Crash];
      ExecuteSplit(c, s, [PurgeEntry(false)], [Crash]);
      ExecuteOne(c, s, PurgeEntry(false));
      ExecuteOne(c, m, Crash);
    } else {
      events, s' := [Crash], After(c, s, Crash);
      ExecuteOne(c, s, Crash);
    }
  }

  lemma ReplayAgain(c: Config, s: Sys, at: nat) returns (events: seq<Event>, s': Sys)
    requires s.phase.Down? && at in s.disk.queued && (forall k <- s.disk.queued :: at <= k)
    requires c.plan(s.attempts, s.disk.queued[at].bytes).Ok?
    ensures Execute(c, s, events) == Some(s') && s'.phase == Purging(s.disk.queued[at], at) && s'.disk == s.disk
    ensures var p := c.plan(s.attempts, s.disk.queued[at].bytes).value;
            s'.db.events == InsertRows(s.db.events, p.rows) && s'.db.llmCalls == s.db.llmCalls + p.llm
  {
    var up := After(c, s, Start);
    var again := After(c, up, ReplayRound(false));
    LeastUnique(s.disk.queued.Keys, at);
    var work;
    work, s' := HandleReplayed(c, again);
    events := [Start] + ([ReplayRound(false)] + work);
    ExecuteSplit(c, s, [Start], [ReplayRound(false)] + work);
    ExecuteOne(c, s, Start);
    ExecuteSplit(c, up, [ReplayRound(false)], work);
    ExecuteOne(c, up, ReplayRound(false));
  }

  /**
   A batch reported lost may have landed: its events commit, its LLM rows fail and so
   does the journal append, and the store keeps rows of a batch nothing will retry.
   */
  lemma LostMayHaveLanded(c: Config, before: seq<Event>, s: Sys) returns (events: seq<Event>, s': Sys)
    requires Faithful(c) && Execute(c, Fresh(), before) == Some(s)
    requires s.phase.Idle? && s.channel != [] && c.plan(s.attempts, s.channel[0].bytes).Ok?
    ensures Execute(c, s, events) == Some(s') && s.channel[0].id < |s'.fate|
    ensures s'.fate[s.channel[0].id] == LostAppend && c.keys(s.channel[0].bytes) <= s'.db.events.Keys
  {
    FreshInv(c);
    RunInv(c, Fresh(), before, s);
    HeadKnown(s);
    var taken := After(c, s, Take);
    var work, stored := StoreEvents(c, taken);
    var p := c.plan(s.attempts, s.channel[0].bytes).value;
    assert PlanFits(c, p, s.channel[0].bytes);
    InsertRowsKeys(s.db.events, p.rows);
    var failed := After(c, stored, InsertLlm(false));
    s' := After(c, failed, AppendEntry(false));
    events := [Take] + (work + ([InsertLlm(false)] + [AppendEntry(false)]));
    ExecuteSplit(c, s, [Take], work + ([InsertLlm(false)] + [AppendEntry(false)]));
    ExecuteOne(c, s, Take);
    ExecuteSplit(c, taken, work, [InsertLlm(false)] + [AppendEntry(false)]);
    ExecuteSplit(c, stored, [InsertLlm(false)], [AppendEntry(false)]);
    ExecuteOne(c, stored, InsertLlm(false));
    ExecuteOne(c, failed, AppendEntry(false));
  }
}
