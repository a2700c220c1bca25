/**
 What one call of the ingest pipeline means (src/ingest.rs): the wire types, the
 node's directory, and `Prepare`, the value of every step before the first write.
 Cryptography is symbolic: a digest or signature is the term that was hashed or signed.
 */
module IngestModel {
  import opened Common

  newtype byte = x: int | 0 <= x < 256
  type Bytes = seq<byte>
  type KeyId = string

  datatype Digest = Sha256(of: Bytes)

  // ---------------------------------------------------------------- the wire

  datatype EventType = LlmCallEvent | OtherEvent(name: string)

  datatype Component = Component(eventType: EventType, ts: int, data: map<string, Json>)

  /** A `CompleteTrace`; columns that are only copied through are left out. */
  datatype CompleteTrace = CompleteTrace(
    traceId: string, thoughtId: string, agentIdHash: string, schemaVersion: string,
    components: seq<Component>,
    signature: string, signatureKeyId: KeyId,
    pqcSignature: Option<string>, pqcKeyId: Option<KeyId>,
    runKind: Option<string>, profileRunKind: Option<string>,
    cohortScope: string, cohortTarget: Option<KeyId>)

  datatype Batch = Batch(events: seq<CompleteTrace>, level: string)

  datatype SchemaError =
    | Malformed
    | MissingField(name: string)
    | FieldTypeMismatch(name: string)
    | NegativeAttemptIndex(got: int)
    | AttemptIndexOutOfRange(got: int)

  datatype LlmCall = LlmCall(
    parentEventType: Option<EventType>, parentAttemptIndex: Option<nat>, attemptIndex: nat, model: string)

  datatype Hybrid = Accepted | PendingRejected | Mismatch

  /** The attestation envelope: the scrubbed trace inline, or a manifest of it. */
  datatype AttestationEnvelope =
    | Inline(traceId: string, agentIdHash: string, trace: CompleteTrace)
    | Manifest(traceId: string, agentIdHash: string,
               contentHash: Digest, byteLen: nat, componentCount: nat, runKind: Option<string>)

  /** The code under the pipeline that never changes between attempts. */
  datatype Wire = Wire(
    parse: Bytes -> Result<Batch, SchemaError>,
    canonicalize: Json -> Option<Bytes>,
    llmCall: Component -> Result<Option<LlmCall>, SchemaError>,
    hybrid: (CompleteTrace, string, Option<string>) -> Hybrid,
    inlineBytes: CompleteTrace -> Option<Bytes>,   // canonical bytes of the inline envelope
    serializes: CompleteTrace -> bool,
    envelopeParses: AttestationEnvelope -> bool)

  // ---------------------------------------------------------------- the node

  datatype Read<+T> = Got(value: T) | Fault

  datatype Tombstone = Notice(id: string) | NoNotice | Unsupported | TombstoneFault

  datatype KeyRecord = KeyRecord(isPerson: bool, pqcPublicKey: Option<string>)

  /** The federation directory as one attempt reads it; any read may fault. */
  datatype Directory = Directory(
    publicKey: KeyId -> Read<Option<string>>,
    record: KeyId -> Read<Option<KeyRecord>>,
    tombstone: string -> Tombstone,
    nodeKey: Option<KeyId>,
    isCanonical: KeyId -> Read<bool>,
    identityOf: KeyId -> Read<Option<KeyId>>,
    principalOf: KeyId -> Read<KeyId>,
    families: KeyId -> Read<set<KeyId>>,
    communities: KeyId -> Read<set<KeyId>>,
    holdsFamily: KeyId -> Read<bool>,
    holdsCommunity: KeyId -> Read<bool>)

  datatype ScrubOutcome = ScrubOutcome(
    fieldsModified: nat, nerRan: bool, appliedLevel: string, modelDigest: Option<string>)

  datatype Scrubbed = Scrubbed(copy: Batch, outcome: ScrubOutcome)

  /** What one attempt meets: the directory, the scrubber, the signer and the clock. */
  datatype World = World(
    dir: Directory,
    scrub: Batch -> Option<Scrubbed>,
    signerFailsAt: Option<nat>,   // the first call of the signer that fails, if any
    clock: int,                   // nanoseconds
    signerKeyId: KeyId)

  datatype VerifyMode = Full | TrustPreVerified
  datatype VerificationSource = ByPersist | ByEdge

  datatype VerifyError = UnknownKey | HybridRequired | HybridVerify | Canonicalization

  datatype ScopeRefusal = NoFamilyMembership | NoCommunityMembership | MembershipUnresolved

  datatype IngestError =
    | Schema(schema: SchemaError)
    | Verify(verify: VerifyError)
    | Scrub
    | ScrubTreatmentMismatch(outcome: ScrubOutcome)
    | Store
    | Sign
    | ScopeRefused(refusal: ScopeRefusal)
    | TraceRefused(kind: string, traceId: string)
    | ShapeDrift

  const FULL_TRACES := "full_traces"
  const SELF_SCOPE := "self"
  const MOCK := "mock"
  const MAX_ATTEMPT_INDEX := 1024
  const MAX_ATTESTATION_ENVELOPE_BYTES := 1024 * 1024
  const SIGNED_INSTANT_RESOLUTION_NANOS := 1_000_000

  // ---------------------------------------------------------------- step 2: verify

  function VerifyTrace(wire: Wire, dir: Directory, t: CompleteTrace): Result<(), IngestError> {
    match dir.publicKey(t.signatureKeyId)
    case Fault => Err(Store)
    case Got(None) => Err(Verify(UnknownKey))
    case Got(Some(ed25519)) =>
      if t.pqcSignature.None? then Judge(wire.hybrid(t, ed25519, None))
      else if t.pqcKeyId.None? then Err(Verify(UnknownKey))
      else
        match dir.record(t.pqcKeyId.value)
        case Fault => Err(Verify(HybridVerify))
        case Got(None) => Err(Verify(UnknownKey))
        case Got(Some(r)) =>
          if r.pqcPublicKey.None? then Err(Verify(UnknownKey))
          else Judge(wire.hybrid(t, ed25519, r.pqcPublicKey))
  }

  function Judge(h: Hybrid): Result<(), IngestError> {
    match h
    case Accepted => Ok(())
    case PendingRejected => Err(Verify(HybridRequired))
    case Mismatch => Err(Verify(HybridVerify))
  }

  // ---------------------------------------------------------------- step 2b: named refusals

  function SignedRunKind(t: CompleteTrace): Option<string> {
    if t.runKind.Some? then t.runKind else t.profileRunKind
  }

  /** Whether this node holds the `canonical` role, read from its own directory. */
  function CanonicalRole(dir: Directory): Read<bool> {
    match dir.nodeKey
    case None => Got(false)
    case Some(node) => dir.isCanonical(node)
  }

  function Entombed(dir: Directory, t: CompleteTrace): Result<(), IngestError> {
    match dir.tombstone(t.traceId)
    case NoNotice => Ok(())
    case Unsupported => Ok(())
    case TombstoneFault => Err(Store)
    case Notice(_) =>
      match dir.record(t.signatureKeyId)
      case Fault => Err(Store)
      case Got(None) => Err(Verify(UnknownKey))
      case Got(Some(r)) => if r.isPerson then Ok(()) else Err(TraceRefused("purge_tombstoned", t.traceId))
  }

  function MockRefused(role: Read<bool>, t: CompleteTrace): Result<(), IngestError> {
    match role
    case Fault => Err(Store)
    case Got(canonical) => if canonical then Err(TraceRefused("trace_run_kind_mock", t.traceId)) else Ok(())
  }

  function RefuseTrace(dir: Directory, t: CompleteTrace): Result<(), IngestError> {
    match Entombed(dir, t)
    case Err(e) => Err(e)
    case Ok(_) => if SignedRunKind(t) == Some(MOCK) then MockRefused(CanonicalRole(dir), t) else Ok(())
  }

  // ---------------------------------------------------------------- steps 3 and 5: hash and sign

  /** `sha256(canonical(component.data))`; both the pre-scrub hash and the signed content hash. */
  function PayloadDigest(wire: Wire, data: map<string, Json>): Option<Digest> {
    match wire.canonicalize(JObject(data))
    case None => None
    case Some(bytes) => Some(Sha256(bytes))
  }

  function Truncate(nanos: int): int {
    nanos - nanos % SIGNED_INSTANT_RESOLUTION_NANOS
  }

  /** The v2 scrub preimage: the members a scrub signature covers. */
  datatype ScrubPreimage = ScrubPreimageV2(
    postContent: Digest, originalContent: Digest, nerRan: bool, level: string,
    modelDigest: Option<string>, keyId: KeyId, instant: int)

  function PreimageV2(post: Digest, original: Digest, nerRan: bool, level: string,
                      modelDigest: Option<string>, keyId: KeyId, instant: int): ScrubPreimage
  {
    ScrubPreimageV2(post, original, nerRan, level, modelDigest, keyId, Truncate(instant))
  }

  datatype Signature = SignedBy(key: KeyId, preimage: ScrubPreimage)

  datatype ScrubEnvelope = ScrubEnvelope(
    originalContentHash: Digest, signature: Signature, keyId: KeyId, timestamp: int,
    nerRan: bool, level: string, modelDigest: Option<string>)

  /** The envelope of the component whose payload digests to `d`. */
  function EnvelopeOf(world: World, outcome: ScrubOutcome, d: Digest): ScrubEnvelope {
    var now := Truncate(world.clock);
    ScrubEnvelope(
      d,
      SignedBy(world.signerKeyId,
               PreimageV2(d, d, outcome.nerRan, outcome.appliedLevel, outcome.modelDigest, world.signerKeyId, now)),
      world.signerKeyId, now, outcome.nerRan, outcome.appliedLevel, outcome.modelDigest)
  }

  /** Every component of the batch, in document order. */
  function Components(events: seq<CompleteTrace>): seq<Component> {
    Concat(ComponentLists(events))
  }

  function ComponentLists(events: seq<CompleteTrace>): (r: seq<seq<Component>>)
    ensures |r| == |events|
    ensures forall i :: 0 <= i < |r| ==> r[i] == events[i].components
  {
    seq(|events|, i requires 0 <= i < |events| => events[i].components)
  }

  // ---------------------------------------------------------------- step 6: decompose

  /** The `trace_events` dedup index; its shard column is a function of these. */
  datatype EventKey = EventKey(
    agentIdHash: string, traceId: string, thoughtId: string, eventType: EventType, attemptIndex: nat, ts: int)

  /** A `trace_events` row; the seven scrub columns are absent until the pipeline sets them together. */
  datatype Row = Row(
    key: EventKey, payload: map<string, Json>, signingKeyId: KeyId, source: VerificationSource,
    scrub: Option<ScrubEnvelope>, cohortScope: string, cohortTarget: Option<KeyId>)

  datatype LlmRow = LlmRow(
    traceId: string, thoughtId: string, parentEventType: EventType, parentAttemptIndex: nat,
    attemptIndex: nat, model: string)

  datatype Decomposed = Decomposed(events: seq<Row>, llmCalls: seq<LlmRow>)

  function AttemptIndexField(c: Component): Result<nat, SchemaError> {
    if "attempt_index" !in c.data then Err(MissingField("attempt_index"))
    else
      match c.data["attempt_index"]
      case JInt(n) =>
        if !(-0x8000_0000_0000_0000 <= n < 0x8000_0000_0000_0000) then Err(FieldTypeMismatch("attempt_index"))
        else if n < 0 then Err(NegativeAttemptIndex(n))
        else if n > MAX_ATTEMPT_INDEX then Err(AttemptIndexOutOfRange(n))
        else Ok(n)
      case _ => Err(FieldTypeMismatch("attempt_index"))
  }

  const STRICT_VERSION := "2.7.9"

  /** 2.7.9 demands the field; other versions read an absent one as 0. */
  function AttemptIndex(t: CompleteTrace, c: Component): Result<nat, SchemaError> {
    var field := AttemptIndexField(c);
    if t.schemaVersion != STRICT_VERSION && field == Err(MissingField("attempt_index")) then Ok(0) else field
  }

  function EventRow(t: CompleteTrace, c: Component, attempt: nat): Row {
    Row(EventKey(t.agentIdHash, t.traceId, t.thoughtId, c.eventType, attempt, c.ts),
        c.data, t.signatureKeyId, ByPersist, None, t.cohortScope, t.cohortTarget)
  }

  function LlmRowOf(t: CompleteTrace, c: Component, call: LlmCall, attempt: nat): Result<LlmRow, SchemaError> {
    if t.schemaVersion == STRICT_VERSION && call.parentEventType.None? then Err(MissingField("data.parent_event_type"))
    else if t.schemaVersion == STRICT_VERSION && call.parentAttemptIndex.None? then Err(MissingField("data.parent_attempt_index"))
    else
      Ok(LlmRow(t.traceId, t.thoughtId,
                if call.parentEventType.Some? then call.parentEventType.value else c.eventType,
                if call.parentAttemptIndex.Some? then call.parentAttemptIndex.value else attempt,
                call.attemptIndex, call.model))
  }

  /** One component: its event row and, for an LLM call that ships its summary, the sibling row. */
  function DecomposeComponent(wire: Wire, t: CompleteTrace, c: Component): Result<(Row, Option<LlmRow>), SchemaError> {
    match AttemptIndex(t, c)
    case Err(e) => Err(e)
    case Ok(attempt) =>
      if c.eventType != LlmCallEvent then Ok((EventRow(t, c, attempt), None))
      else
        match wire.llmCall(c)
        case Err(e) => Err(e)
        case Ok(None) => Ok((EventRow(t, c, attempt), None))
        case Ok(Some(call)) =>
          match LlmRowOf(t, c, call, attempt)
          case Err(e) => Err(e)
          case Ok(row) => Ok((EventRow(t, c, attempt), Some(row)))
  }

  function DecomposeStep(wire: Wire, t: CompleteTrace): Component -> Result<(Row, Option<LlmRow>), SchemaError> {
    c => DecomposeComponent(wire, t, c)
  }

  function Firsts<A, B>(xs: seq<(A, B)>): (r: seq<A>)
    ensures |r| == |xs|
    ensures forall i :: 0 <= i < |xs| ==> r[i] == xs[i].0
  {
    if xs == [] then [] else [xs[0].0] + Firsts(xs[1..])
  }

  function Present<A, B>(xs: seq<(A, Option<B>)>): seq<B> {
    if xs == [] then []
    else (if xs[0].1.Some? then [xs[0].1.value] else []) + Present(xs[1..])
  }

  function Decompose(wire: Wire, t: CompleteTrace): Result<Decomposed, SchemaError> {
    match Traverse(t.components, DecomposeStep(wire, t))
    case Err(e) => Err(e)
    case Ok(pairs) => Ok(Decomposed(Firsts(pairs), Present(pairs)))
  }

  // ---------------------------------------------------------------- step 6: the write-scope gate

  datatype TargetPlane = FamilyPlane | RoomPlane
  datatype Placement = SelfCollective | Targeted(plane: TargetPlane) | Commons

  /** The closed set of cohort scopes; `None` for any other spelling. */
  function PlacementOf(scope: string): Option<Placement> {
    if scope == SELF_SCOPE then Some(SelfCollective)
    else if scope == "family" then Some(Targeted(FamilyPlane))
    else if scope == "community" || scope == "affiliations" then Some(Targeted(RoomPlane))
    else if scope == "species" || scope == "biosphere" || scope == "federation" then Some(Commons)
    else None
  }

  function TargetPlaneOf(scope: string): Option<TargetPlane> {
    match PlacementOf(scope)
    case Some(Targeted(plane)) => Some(plane)
    case _ => None
  }

  datatype Admission = Admission(occurrence: KeyId, identity: KeyId, families: set<KeyId>, communities: set<KeyId>)

  function ResolveAdmission(dir: Directory, signer: KeyId): Read<Admission> {
    match dir.principalOf(signer)
    case Fault => Fault
    case Got(identity) =>
      match dir.families(identity)
      case Fault => Fault
      case Got(families) =>
        match dir.communities(identity)
        case Fault => Fault
        case Got(communities) => Got(Admission(signer, identity, families, communities))
  }

  predicate IsMember(a: Admission, plane: TargetPlane, target: Option<KeyId>) {
    target.Some? && target.value in (if plane == FamilyPlane then a.families else a.communities)
  }

  /** Why a non-member is refused: a roster this node does not hold is "unresolved". */
  function Refusal(dir: Directory, plane: TargetPlane, target: Option<KeyId>): IngestError {
    var terminal := ScopeRefused(if plane == FamilyPlane then NoFamilyMembership else NoCommunityMembership);
    if target.None? then terminal
    else
      match if plane == FamilyPlane then dir.holdsFamily(target.value) else dir.holdsCommunity(target.value)
      case Fault => Store
      case Got(held) => if held then terminal else ScopeRefused(MembershipUnresolved)
  }

  function SelfTarget(dir: Directory, signer: KeyId): Read<KeyId> {
    match dir.identityOf(signer)
    case Fault => Fault
    case Got(None) => Got(signer)
    case Got(Some(identity)) => Got(identity)
  }

  /** The envelope and provenance columns a row carries once the pipeline has stamped it. */
  function Stamp(row: Row, e: ScrubEnvelope, mode: VerifyMode): Row {
    row.(scrub := Some(e), source := if mode == Full then ByPersist else ByEdge)
  }

  /** The gate on one stamped row, with the writer's admission resolved afresh. */
  function GateRow(dir: Directory, signer: KeyId, row: Row): Result<Row, IngestError> {
    var aimed := if row.cohortScope == SELF_SCOPE then
                   match SelfTarget(dir, signer)
                   case Fault => None
                   case Got(target) => Some(row.(cohortTarget := Some(target)))
                 else Some(row);
    if aimed.None? then Err(Store)
    else
      match TargetPlaneOf(row.cohortScope)
      case None => Ok(aimed.value)
      case Some(plane) =>
        match ResolveAdmission(dir, signer)
        case Fault => Err(Store)
        case Got(admission) =>
          if IsMember(admission, plane, aimed.value.cohortTarget) then Ok(aimed.value)
          else Err(Refusal(dir, plane, aimed.value.cohortTarget))
  }

  // ---------------------------------------------------------------- step 6: the attestation

  /** `sha256("ciris:trace-attestation:v1:" ‖ trace_id)` folded to a UUID: one term per trace id. */
  datatype AttestationId = AttestationId(traceId: string)

  datatype AttestationInput = AttestationInput(id: AttestationId, attester: KeyId, envelope: AttestationEnvelope)

  function BuildAttestation(wire: Wire, t: CompleteTrace): Result<AttestationInput, IngestError> {
    if !wire.serializes(t) then Err(Sign)
    else
      match wire.inlineBytes(t)
      case None => Err(Verify(Canonicalization))
      case Some(bytes) =>
        var envelope :=
          if |bytes| > MAX_ATTESTATION_ENVELOPE_BYTES
          then Manifest(t.traceId, t.agentIdHash, Sha256(bytes), |bytes|, |t.components|, SignedRunKind(t))
          else Inline(t.traceId, t.agentIdHash, t);
        if wire.envelopeParses(envelope)
        then Ok(AttestationInput(AttestationId(t.traceId), t.signatureKeyId, envelope))
        else Err(Sign)
  }

  /** The inbound projection: decompose the inline trace; a manifest carries no payload. */
  function ProjectEvents(wire: Wire, envelope: AttestationEnvelope): Option<Decomposed> {
    match envelope
    case Manifest(_, _, _, _, _, _) => None
    case Inline(_, _, trace) =>
      match Decompose(wire, trace)
      case Ok(d) => Some(d)
      case Err(_) => None
  }

  /** The run kind the federation-tier gate reads from either shape. */
  function EnvelopeRunKind(envelope: AttestationEnvelope): Option<string> {
    match envelope
    case Manifest(_, _, _, _, _, kind) => kind
    case Inline(_, _, trace) => SignedRunKind(trace)
  }

  // ---------------------------------------------------------------- the whole preparation

  datatype TraceOutput = TraceOutput(rows: seq<Row>, llmCalls: seq<LlmRow>, attestation: AttestationInput)

  /** Everything a batch will write, fixed before the first write. */
  datatype Prepared = Prepared(outputs: seq<TraceOutput>, scrubbedFields: nat, signaturesVerified: nat)

  function RowLists(outputs: seq<TraceOutput>): (r: seq<seq<Row>>)
    ensures |r| == |outputs| && forall i :: 0 <= i < |r| ==> r[i] == outputs[i].rows
  {
    seq(|outputs|, i requires 0 <= i < |outputs| => outputs[i].rows)
  }

  function Rows(p: Prepared): seq<Row> {
    Concat(RowLists(p.outputs))
  }

  function LlmLists(outputs: seq<TraceOutput>): (r: seq<seq<LlmRow>>)
    ensures |r| == |outputs| && forall i :: 0 <= i < |r| ==> r[i] == outputs[i].llmCalls
  {
    seq(|outputs|, i requires 0 <= i < |outputs| => outputs[i].llmCalls)
  }

  function LlmRows(p: Prepared): seq<LlmRow> {
    Concat(LlmLists(p.outputs))
  }

  function Attestations(p: Prepared): (r: seq<AttestationInput>)
    ensures |r| == |p.outputs| && forall i :: 0 <= i < |r| ==> r[i] == p.outputs[i].attestation
  {
    seq(|p.outputs|, i requires 0 <= i < |p.outputs| => p.outputs[i].attestation)
  }

  /** One decomposed row through stamp and gate, from its own payload. */
  function StampAndGate(wire: Wire, world: World, mode: VerifyMode, outcome: ScrubOutcome, row: Row): Result<Row, IngestError> {
    match PayloadDigest(wire, row.payload)
    case None => Err(Verify(Canonicalization))
    case Some(d) => GateRow(world.dir, world.signerKeyId, Stamp(row, EnvelopeOf(world, outcome, d), mode))
  }

  function RowStep(wire: Wire, world: World, mode: VerifyMode, outcome: ScrubOutcome): Row -> Result<Row, IngestError> {
    row => StampAndGate(wire, world, mode, outcome, row)
  }

  /** One trace and its scrubbed copy, if the scrubber kept one at its index. */
  function PrepareTrace(wire: Wire, world: World, mode: VerifyMode, outcome: ScrubOutcome,
                        t: CompleteTrace, copy: Option<CompleteTrace>): Result<TraceOutput, IngestError>
  {
    match Decompose(wire, t)
    case Err(e) => Err(Schema(e))
    case Ok(d) =>
      match Traverse(d.events, RowStep(wire, world, mode, outcome))
      case Err(e) => Err(e)
      case Ok(rows) =>
        match copy
        case None => Err(ShapeDrift)
        case Some(scrubbed) =>
          match BuildAttestation(wire, scrubbed)
          case Err(e) => Err(e)
          case Ok(input) => Ok(TraceOutput(rows, d.llmCalls, input))
  }

  function TraceStep(wire: Wire, world: World, mode: VerifyMode, outcome: ScrubOutcome)
    : ((CompleteTrace, Option<CompleteTrace>)) -> Result<TraceOutput, IngestError>
  {
    (p: (CompleteTrace, Option<CompleteTrace>)) => PrepareTrace(wire, world, mode, outcome, p.0, p.1)
  }

  function CopyAt(copies: seq<CompleteTrace>, i: nat): Option<CompleteTrace> {
    if i < |copies| then Some(copies[i]) else None
  }

  /** Each trace beside what stands at its index in the scrubbed copy. */
  function Beside(events: seq<CompleteTrace>, copies: seq<CompleteTrace>): (r: seq<(CompleteTrace, Option<CompleteTrace>)>)
    ensures |r| == |events|
    ensures forall i :: 0 <= i < |r| ==> r[i] == (events[i], CopyAt(copies, i))
  {
    seq(|events|, i requires 0 <= i < |events| => (events[i], CopyAt(copies, i)))
  }

  function VerifyStep(wire: Wire, dir: Directory): CompleteTrace -> Result<(), IngestError> {
    t => VerifyTrace(wire, dir, t)
  }

  function RefuseStep(dir: Directory): CompleteTrace -> Result<(), IngestError> {
    t => RefuseTrace(dir, t)
  }

  function DigestStep(wire: Wire): Component -> Result<Digest, IngestError> {
    (c: Component) => match PayloadDigest(wire, c.data) case None => Err(Verify(Canonicalization)) case Some(d) => Ok(d)
  }

  predicate SignsAll(world: World, n: nat) {
    n == 0 || world.signerFailsAt.None? || n <= world.signerFailsAt.value
  }

  /** Steps 1 to 6: what the batch will write, or the first refusal in pipeline order. */
  function Prepare(wire: Wire, world: World, mode: VerifyMode, bytes: Bytes): Result<Prepared, IngestError> {
    match wire.parse(bytes)
    case Err(e) => Err(Schema(e))
    case Ok(batch) => PrepareBatch(wire, world, mode, batch)
  }

  function PrepareBatch(wire: Wire, world: World, mode: VerifyMode, batch: Batch): Result<Prepared, IngestError> {
    match Screen(wire, world, mode, batch)
    case Err(e) => Err(e)
    case Ok(s) => Assemble(wire, world, mode, batch, s)
  }

  /** Steps 2 to 5, none of which looks at a row: verify, refuse, hash, scrub, sign. */
  function Screen(wire: Wire, world: World, mode: VerifyMode, batch: Batch): Result<Scrubbed, IngestError> {
    var verified := Admitted(wire, world, mode, batch);
    if verified.Err? then Err(verified.error)
    else
      var digests := Traverse(Components(batch.events), DigestStep(wire));
      if digests.Err? then Err(digests.error)
      else
        var s := world.scrub(batch);
        if s.None? then Err(Scrub)
        else if s.value.outcome.appliedLevel == FULL_TRACES && !s.value.outcome.nerRan
        then Err(ScrubTreatmentMismatch(s.value.outcome))
        else if !SignsAll(world, |digests.value|) then Err(Sign)
        else Ok(s.value)
  }

  /** Steps 2 and 2b: every trace verified, then every trace past the named refusals. */
  function Admitted(wire: Wire, world: World, mode: VerifyMode, batch: Batch): Result<(), IngestError> {
    var verified := if mode == Full then Traverse(batch.events, VerifyStep(wire, world.dir)) else Ok([]);
    if verified.Err? then Err(verified.error)
    else
      var refused := Traverse(batch.events, RefuseStep(world.dir));
      if refused.Err? then Err(refused.error) else Ok(())
  }

  /** Step 6 over every trace and its scrubbed copy. */
  function Assemble(wire: Wire, world: World, mode: VerifyMode, batch: Batch, s: Scrubbed): Result<Prepared, IngestError> {
    match Traverse(Beside(batch.events, s.copy.events), TraceStep(wire, world, mode, s.outcome))
    case Err(e) => Err(e)
    case Ok(outputs) =>
      Ok(Prepared(outputs, s.outcome.fieldsModified, if mode == Full then |batch.events| else 0))
  }

  // ---------------------------------------------------------------- the writes

  /** The three tables a batch reaches. */
  datatype Db = Db(events: map<EventKey, Row>, llmCalls: seq<LlmRow>, attestations: map<AttestationId, AttestationInput>)

  /** `INSERT ... ON CONFLICT (dedup index) DO NOTHING`, row by row. */
  function InsertRows(events: map<EventKey, Row>, rows: seq<Row>): map<EventKey, Row>
    decreases |rows|
  {
    if rows == [] then events
    else
      var k := rows[0].key;
      InsertRows(if k in events then events else events[k := rows[0]], rows[1..])
  }

  /** Conflict-ignoring mints; `skips` are the inputs the directory refused. */
  function Mint(attestations: map<AttestationId, AttestationInput>, inputs: seq<AttestationInput>, lands: seq<bool>)
    : map<AttestationId, AttestationInput>
    requires |lands| == |inputs|
    decreases |inputs|
  {
    if inputs == [] then attestations
    else
      var a := inputs[0];
      Mint(if lands[0] && a.id !in attestations then attestations[a.id := a] else attestations, inputs[1..], lands[1..])
  }

  /** How the writes of one attempt go: which mints land, and whether each insert commits. */
  datatype Faults = Faults(mintLands: nat -> bool, eventsLand: bool, llmLand: bool)

  datatype Summary = Summary(
    envelopesProcessed: nat, eventsInserted: nat, eventsConflicted: nat,
    attestationsMinted: nat, attestationsSkipped: nat, llmCallsInserted: nat,
    scrubbedFields: nat, signaturesVerified: nat)

  function Landing(faults: Faults, n: nat): (r: seq<bool>)
    ensures |r| == n
  {
    seq(n, i requires 0 <= i < n => faults.mintLands(i))
  }

  /** After the mints: the attestation table only. */
  function Minted(db: Db, p: Prepared, faults: Faults): Db {
    db.(attestations := Mint(db.attestations, Attestations(p), Landing(faults, |p.outputs|)))
  }

  /** After the event insert: one transaction over every row of the batch. */
  function EventsIn(db: Db, p: Prepared): Db {
    db.(events := InsertRows(db.events, Rows(p)))
  }

  /** After the LLM insert, which has no conflict clause. */
  function LlmIn(db: Db, p: Prepared): Db {
    db.(llmCalls := db.llmCalls + LlmRows(p))
  }

  /** The tables after an attempt with these faults, and whether it reported success. */
  function Written(db: Db, p: Prepared, faults: Faults): (Db, bool) {
    var minted := Minted(db, p, faults);
    if !faults.eventsLand then (minted, false)
    else if !faults.llmLand then (EventsIn(minted, p), false)
    else (LlmIn(EventsIn(minted, p), p), true)
  }
}
