/**
 The single persister (src/queue.rs) over its bounded channel, its journal and the
 store, as a step machine: producers submit at any time, every write may fail, and
 the process may crash between any two steps and start again.
 */
module Persister {
  import opened Common
  import opened Journal
  import opened IngestModel
  import opened IngestProperties

  /** A submitted batch; `id` is its place in submission order, a label for the proofs only. */
  datatype Job = Job(id: nat, bytes: Bytes)

  /** What an admitted attempt will write. */
  datatype Plan = Plan(rows: seq<Row>, llm: seq<LlmRow>, attestations: seq<AttestationInput>)

  /** The node: its queue depth, and what the n-th attempt makes of a batch. */
  datatype Config = Config(
    depth: nat,
    plan: (nat, Bytes) -> Result<Plan, IngestError>,
    keys: Bytes -> set<EventKey>,
    llm: Bytes -> seq<LlmRow>)

  /** The event keys and LLM rows of a batch do not depend on the attempt. */
  ghost predicate Faithful(c: Config) {
    forall n, b :: c.plan(n, b).Ok? ==> PlanFits(c, c.plan(n, b).value, b)
  }

  ghost predicate PlanFits(c: Config, p: Plan, b: Bytes) {
    KeysOf(p.rows) == c.keys(b) && p.llm == c.llm(b)
  }

  datatype Source = FromQueue | FromJournal(at: nat)

  datatype Stage =
    | Preparing
    | Minting(plan: Plan, done: nat)
    | EventsStored(plan: Plan)

  datatype Phase =
    | Down
    | Replaying
    | Idle
    | Working(job: Job, source: Source, stage: Stage)
    | Purging(job: Job, at: nat)
    | Journaling(job: Job)
    | Exited

  /** Where an accepted batch is. The last three are final. */
  datatype Fate = Queued | InProcess | Journaled | Persisted | Rejected | LostAppend | LostCrash

  datatype Sys = Sys(
    channel: seq<Job>, sendersOpen: bool, phase: Phase, disk: Disk<Job>, nextSeq: nat, db: Db, attempts: nat,
    accepted: seq<Bytes>, fate: seq<Fate>, landed: set<Job>, llmLog: seq<Job>)

  datatype Event =
    | Submit(bytes: Bytes)
    | CloseSenders
    | Take
    | Exit
    | ReplayRound(readFails: bool)
    | Decide
    | MintOne(lands: bool)
    | InsertEvents(commits: bool)
    | InsertLlm(commits: bool)
    | PurgeEntry(commits: bool)
    | AppendEntry(commits: bool)
    | Crash
    | Start

  predicate CanStep(c: Config, s: Sys, e: Event) {
    match e
    case Submit(_) => s.sendersOpen && !s.phase.Down?
    case CloseSenders => !s.phase.Down?
    case Take => s.phase.Idle? && s.channel != []
    case Exit => s.phase.Idle? && s.channel == [] && !s.sendersOpen
    case ReplayRound(_) => s.phase.Replaying?
    case Decide => s.phase.Working? && s.phase.stage.Preparing?
    case MintOne(_) => s.phase.Working? && s.phase.stage.Minting? && s.phase.stage.done < |s.phase.stage.plan.attestations|
    case InsertEvents(_) => s.phase.Working? && s.phase.stage.Minting? && s.phase.stage.done == |s.phase.stage.plan.attestations|
    case InsertLlm(_) => s.phase.Working? && s.phase.stage.EventsStored?
    case PurgeEntry(_) => s.phase.Purging?
    case AppendEntry(_) => s.phase.Journaling?
    case Crash => !s.phase.Down?
    case Start => s.phase.Down?
  }

  /** A Store failure: a queued batch goes to the journal, a replayed one halts the replay. */
  function StoreFailed(s: Sys): Sys
    requires s.phase.Working?
  {
    if s.phase.source.FromQueue? then s.(phase := Journaling(s.phase.job)) else s.(phase := Idle)
  }

  function Decided(c: Config, s: Sys): Sys
    requires s.phase.Working?
  {
    var job := s.phase.job;
    var counted := s.(attempts := s.attempts + 1);
    match c.plan(s.attempts, job.bytes)
    case Ok(p) => counted.(phase := s.phase.(stage := Minting(p, 0)))
    case Err(e) =>
      if e == Store then StoreFailed(counted)
      else if s.phase.source.FromJournal? then counted.(phase := Idle)
      else SetFate(counted.(phase := Idle), job, Rejected)
  }

  function SetFate(s: Sys, job: Job, f: Fate): Sys {
    if job.id < |s.fate| then s.(fate := s.fate[job.id := f]) else s
  }

  /** A crash takes the channel and the batch in hand with it; the disk and the store stay. */
  function Crashed(s: Sys): Sys {
    s.(channel := [], phase := Down,
       fate := seq(|s.fate|, i requires 0 <= i < |s.fate| =>
                 if s.fate[i] == Queued || s.fate[i] == InProcess then LostCrash else s.fate[i]))
  }

  function After(c: Config, s: Sys, e: Event): Sys
    requires CanStep(c, s, e)
  {
    match e
    case Submit(b) =>
      if |s.channel| >= c.depth then s   // QueueError::Full
      else s.(channel := s.channel + [Job(|s.accepted|, b)], accepted := s.accepted + [b], fate := s.fate + [Queued])
    case CloseSenders => s.(sendersOpen := false)
    case Take =>
      var job := s.channel[0];
      SetFate(s.(channel := s.channel[1..], phase := Working(job, FromQueue, Preparing)), job, InProcess)
    case Exit => s.(phase := Exited)
    case ReplayRound(readFails) =>
      if readFails || s.disk.queued.Keys == {} then s.(phase := Idle)
      else
        var at := Least(s.disk.queued.Keys);
        s.(phase := Working(s.disk.queued[at], FromJournal(at), Preparing))
    case Decide => Decided(c, s)
    case MintOne(lands) =>
      var stage := s.phase.stage;
      var a := stage.plan.attestations[stage.done];
      var next := s.(phase := s.phase.(stage := Minting(stage.plan, stage.done + 1)));
      if lands && a.id !in s.db.attestations
      then next.(db := s.db.(attestations := s.db.attestations[a.id := a])) else next
    case InsertEvents(commits) =>
      if !commits then StoreFailed(s)
      else s.(db := s.db.(events := InsertRows(s.db.events, s.phase.stage.plan.rows)),
              landed := s.landed + {s.phase.job},
              phase := s.phase.(stage := EventsStored(s.phase.stage.plan)))
    case InsertLlm(commits) =>
      if !commits then StoreFailed(s)
      else
        var stored := s.(db := s.db.(llmCalls := s.db.llmCalls + s.phase.stage.plan.llm), llmLog := s.llmLog + [s.phase.job]);
        if s.phase.source.FromQueue? then SetFate(stored.(phase := Idle), s.phase.job, Persisted)
        else stored.(phase := Purging(s.phase.job, s.phase.source.at))
    case PurgeEntry(commits) =>
      if !commits then s.(phase := Idle)
      else SetFate(s.(disk := Purged(s.disk, s.phase.at), phase := Replaying), s.phase.job, Persisted)
    case AppendEntry(commits) =>
      var spent := s.(nextSeq := s.nextSeq + 1, phase := Idle);
      if commits then SetFate(spent.(disk := Committed(s.disk, s.nextSeq, s.phase.job)), s.phase.job, Journaled)
      else SetFate(spent, s.phase.job, LostAppend)
    case Crash => Crashed(s)
    case Start => s.(phase := Replaying, sendersOpen := true, nextSeq := Recovered(s.disk))
  }

  /** A node that has never run. */
  function Fresh(): Sys {
    Sys([], false, Down, Disk(map[], None), 1, Db(map[], [], map[]), 0, [], [], {}, [])
  }

  /** The state after a list of events, if each was possible when it came. */
  function Execute(c: Config, s: Sys, events: seq<Event>): Option<Sys>
    decreases |events|
  {
    if events == [] then Some(s)
    else if !CanStep(c, s, events[0]) then None
    else Execute(c, After(c, s, events[0]), events[1..])
  }

  /** The persister of one node: attempt `n` runs the whole preparation against what the node meets then. */
  function NodeConfig(wire: Wire, depth: nat, world: nat -> World): Config {
    Config(depth,
           (n: nat, b: Bytes) => PlanOf(Prepare(wire, world(n), Full, b)),
           b => BatchKeys(wire, b),
           b => BatchLlm(wire, b))
  }

  function PlanOf(r: Result<Prepared, IngestError>): Result<Plan, IngestError> {
    match r
    case Ok(p) => Ok(Plan(Rows(p), LlmRows(p), Attestations(p)))
    case Err(e) => Err(e)
  }

  /** The event keys a batch's bytes stand for. */
  function BatchKeys(wire: Wire, b: Bytes): set<EventKey> {
    match wire.parse(b)
    case Err(_) => {}
    case Ok(batch) => set r <- Concat(BaseRows(wire, batch.events)) :: r.key
  }

  function BatchLlm(wire: Wire, b: Bytes): seq<LlmRow> {
    match wire.parse(b)
    case Err(_) => []
    case Ok(batch) => Concat(BaseLlm(wire, batch.events))
  }
}
