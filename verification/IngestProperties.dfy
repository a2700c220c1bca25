/** What every successful preparation guarantees, for any batch, directory, scrubber and mode. */
module IngestProperties {
  import opened Common
  import opened IngestModel

  // ---------------------------------------------------------------- decompose

  /** One event row per component, in order, carrying that component's payload and the trace's own keys. */
  lemma {:induction false} DecomposeAligned(wire: Wire, t: CompleteTrace)
    requires Decompose(wire, t).Ok?
    ensures var d := Decompose(wire, t).value;
            && |d.events| == |t.components|
            && |d.llmCalls| <= |t.components|
            && forall j :: 0 <= j < |t.components| ==>
                 && AttemptIndex(t, t.components[j]).Ok?
                 && d.events[j] == EventRow(t, t.components[j], AttemptIndex(t, t.components[j]).value)
  {
    var pairs := Traverse(t.components, DecomposeStep(wire, t)).value;
    PresentAtMost(pairs);
    forall j | 0 <= j < |t.components|
      ensures AttemptIndex(t, t.components[j]).Ok?
      ensures pairs[j].0 == EventRow(t, t.components[j], AttemptIndex(t, t.components[j]).value)
    {
      assert DecomposeStep(wire, t)(t.components[j]) == Ok(pairs[j]);
    }
  }

  /** The attempt index a component carries; only versions before 2.7.9 may leave it out, for 0. */
  ghost predicate IndexRead(t: CompleteTrace, c: Component, n: int) {
    if "attempt_index" in c.data then c.data["attempt_index"] == JInt(n) else t.schemaVersion != "2.7.9" && n == 0
  }

  /** Why a component's attempt index cannot be read. */
  lemma AttemptIndexErrors(t: CompleteTrace, c: Component)
    ensures var r := AttemptIndex(t, c);
            if "attempt_index" !in c.data then r == (if t.schemaVersion == "2.7.9" then Err(MissingField("attempt_index")) else Ok(0))
            else match c.data["attempt_index"]
                 case JInt(n) =>
                   r == (if n < -9_223_372_036_854_775_808 || n > 9_223_372_036_854_775_807 then Err(FieldTypeMismatch("attempt_index"))
                         else if n < 0 then Err(NegativeAttemptIndex(n)) else if n > 1024 then Err(AttemptIndexOutOfRange(n)) else Ok(n))
                 case _ => r == Err(FieldTypeMismatch("attempt_index"))
  {
  }

  lemma AttemptIndexIff(t: CompleteTrace, c: Component, n: nat)
    ensures AttemptIndex(t, c) == Ok(n) <==> IndexRead(t, c, n) && n <= 1024
  {
  }

  /** The columns of a row that come from its trace and its component. */
  ghost predicate CarriesTrace(t: CompleteTrace, c: Component, row: Row) {
    && row.key.agentIdHash == t.agentIdHash && row.key.traceId == t.traceId && row.key.thoughtId == t.thoughtId
    && row.key.eventType == c.eventType && row.key.ts == c.ts && IndexRead(t, c, row.key.attemptIndex) && row.key.attemptIndex <= 1024
    && row.signingKeyId == t.signatureKeyId && row.cohortScope == t.cohortScope
    && (t.cohortScope != "self" ==> row.cohortTarget == t.cohortTarget)
  }

  /** The component is an LLM call that ships its summary. */
  ghost predicate MakesCall(wire: Wire, c: Component) {
    c.eventType == LlmCallEvent && wire.llmCall(c).Ok? && wire.llmCall(c).value.Some?
  }

  /** The columns of an LLM row: the call's own, with the component standing in for a parent the call does not name. */
  ghost predicate CarriesCall(t: CompleteTrace, c: Component, call: LlmCall, row: LlmRow) {
    && row.traceId == t.traceId && row.thoughtId == t.thoughtId
    && row.attemptIndex == call.attemptIndex && row.model == call.model
    && row.parentEventType == (if call.parentEventType.Some? then call.parentEventType.value else c.eventType)
    && (if call.parentAttemptIndex.Some? then row.parentAttemptIndex == call.parentAttemptIndex.value
        else IndexRead(t, c, row.parentAttemptIndex))
    && (t.schemaVersion == "2.7.9" ==> call.parentEventType.Some? && call.parentAttemptIndex.Some?)
  }

  /** What the decomposition asks of a component. */
  ghost predicate Reads(wire: Wire, t: CompleteTrace, c: Component) {
    && (exists n :: 0 <= n <= 1024 && IndexRead(t, c, n))
    && (c.eventType == LlmCallEvent ==>
          && wire.llmCall(c).Ok?
          && (wire.llmCall(c).value.Some? && t.schemaVersion == "2.7.9" ==>
                wire.llmCall(c).value.value.parentEventType.Some? && wire.llmCall(c).value.value.parentAttemptIndex.Some?))
  }

  lemma ComponentReadsIff(wire: Wire, t: CompleteTrace, c: Component)
    ensures DecomposeComponent(wire, t, c).Ok? <==> Reads(wire, t, c)
  {
    forall n: nat ensures AttemptIndex(t, c) == Ok(n) <==> IndexRead(t, c, n) && n <= 1024 {
      AttemptIndexIff(t, c, n);
    }
    if AttemptIndex(t, c).Ok? {
      assert IndexRead(t, c, AttemptIndex(t, c).value);
    }
  }

  /** A trace decomposes exactly when each of its components can be read. */
  lemma DecomposesIff(wire: Wire, t: CompleteTrace)
    ensures Decompose(wire, t).Ok? <==> forall c <- t.components :: Reads(wire, t, c)
  {
    forall c ensures DecomposeStep(wire, t)(c).Ok? <==> Reads(wire, t, c) {
      ComponentReadsIff(wire, t, c);
    }
    if forall c <- t.components :: Reads(wire, t, c) {
      assert forall i :: 0 <= i < |t.components| ==> t.components[i] in t.components;
    } else {
      var c :| c in t.components && !Reads(wire, t, c);
      var i :| 0 <= i < |t.components| && t.components[i] == c;
      assert DecomposeStep(wire, t)(t.components[i]).Err?;
    }
  }

  /** The LLM rows of a trace are those of its calls, in order: `at` lists the components that make one. */
  lemma LlmAligned(wire: Wire, t: CompleteTrace) returns (at: seq<nat>)
    requires Decompose(wire, t).Ok?
    ensures |at| == |Decompose(wire, t).value.llmCalls|
    ensures forall k, l :: 0 <= k < l < |at| ==> at[k] < at[l]
    ensures forall j: nat :: j in at <==> j < |t.components| && MakesCall(wire, t.components[j])
    ensures forall k :: 0 <= k < |at| ==>
              && at[k] < |t.components| && MakesCall(wire, t.components[at[k]])
              && CarriesCall(t, t.components[at[k]], wire.llmCall(t.components[at[k]]).value.value, Decompose(wire, t).value.llmCalls[k])
  {
    var pairs := Traverse(t.components, DecomposeStep(wire, t)).value;
    at := PresentAligned(pairs);
    forall j: nat | j < |t.components| ensures CallMade(wire, t, t.components[j], pairs[j].1) {
      assert DecomposeStep(wire, t)(t.components[j]) == Ok(pairs[j]);
      CallRead(wire, t, t.components[j], pairs[j]);
    }
    forall k | 0 <= k < |at|
      ensures at[k] < |t.components| && CallMade(wire, t, t.components[at[k]], Some(Present(pairs)[k]))
    {
      assert at[k] in at;
    }
  }

  ghost predicate CallMade(wire: Wire, t: CompleteTrace, c: Component, row: Option<LlmRow>) {
    && (row.Some? <==> MakesCall(wire, c))
    && (row.Some? ==> CarriesCall(t, c, wire.llmCall(c).value.value, row.value))
  }

  lemma CallRead(wire: Wire, t: CompleteTrace, c: Component, pair: (Row, Option<LlmRow>))
    requires DecomposeComponent(wire, t, c) == Ok(pair)
    ensures CallMade(wire, t, c, pair.1)
  {
    AttemptIndexIff(t, c, AttemptIndex(t, c).value);
  }

  /** Where the kept ones stood. */
  lemma {:induction false} PresentAligned<A, B>(xs: seq<(A, Option<B>)>) returns (at: seq<nat>)
    ensures |at| == |Present(xs)|
    ensures forall k, l :: 0 <= k < l < |at| ==> at[k] < at[l]
    ensures forall j: nat :: j in at <==> j < |xs| && xs[j].1.Some?
    ensures forall k :: 0 <= k < |at| ==> at[k] < |xs| && xs[at[k]].1 == Some(Present(xs)[k])
  {
    if xs == [] {
      at := [];
    } else {
      var init, last := xs[..|xs| - 1], xs[|xs| - 1];
      at := PresentAligned(init);
      PresentInit(xs);
      if last.1.Some? {
        at := at + [|xs| - 1];
      }
    }
  }

  lemma {:induction false} PresentInit<A, B>(xs: seq<(A, Option<B>)>)
    requires xs != []
    ensures Present(xs) == Present(xs[..|xs| - 1]) + if xs[|xs| - 1].1.Some? then [xs[|xs| - 1].1.value] else []
  {
    if |xs| > 1 {
      PresentInit(xs[1..]);
      assert xs[1..][..|xs| - 2] == xs[..|xs| - 1][1..];
    }
  }

  lemma {:induction false} PresentAtMost<A, B>(xs: seq<(A, Option<B>)>)
    ensures |Present(xs)| <= |xs|
  {
    if xs != [] { PresentAtMost(xs[1..]); }
  }

  // ---------------------------------------------------------------- the shape of a success

  /** The parsed batch, the scrub result and the per-trace outputs behind a success. */
  lemma PreparedShape(wire: Wire, world: World, mode: VerifyMode, bytes: Bytes, p: Prepared)
    returns (batch: Batch, s: Scrubbed)
    requires Prepare(wire, world, mode, bytes) == Ok(p)
    ensures wire.parse(bytes) == Ok(batch)
    ensures world.scrub(batch) == Some(s) && Screen(wire, world, mode, batch) == Ok(s)
    ensures |p.outputs| == |batch.events|
    ensures forall i :: 0 <= i < |batch.events| ==>
              PrepareTrace(wire, world, mode, s.outcome, batch.events[i], CopyAt(s.copy.events, i)) == Ok(p.outputs[i])
  {
    batch := wire.parse(bytes).value;
    s := Screen(wire, world, mode, batch).value;
    AssembledShape(wire, world, mode, batch, s, p);
  }

  lemma AssembledShape(wire: Wire, world: World, mode: VerifyMode, batch: Batch, s: Scrubbed, p: Prepared)
    requires Assemble(wire, world, mode, batch, s) == Ok(p)
    ensures |p.outputs| == |batch.events|
    ensures forall i :: 0 <= i < |batch.events| ==>
              PrepareTrace(wire, world, mode, s.outcome, batch.events[i], CopyAt(s.copy.events, i)) == Ok(p.outputs[i])
  {
  }

  /** Row `j` of trace `i` is component `j` of trace `i`, stamped from its own digest and gated. */
  lemma TraceRows(wire: Wire, world: World, mode: VerifyMode, outcome: ScrubOutcome,
                  t: CompleteTrace, copy: Option<CompleteTrace>, out: TraceOutput)
    requires PrepareTrace(wire, world, mode, outcome, t, copy) == Ok(out)
    ensures Decompose(wire, t).Ok? && out.llmCalls == Decompose(wire, t).value.llmCalls
    ensures |out.rows| == |t.components| == |Decompose(wire, t).value.events|
    ensures forall j :: 0 <= j < |t.components| ==>
              StampAndGate(wire, world, mode, outcome, Decompose(wire, t).value.events[j]) == Ok(out.rows[j])
    ensures copy.Some? && BuildAttestation(wire, copy.value) == Ok(out.attestation)
  {
  }

  /** Where a stored row comes from, and what holds of it. */
  lemma RowOrigin(wire: Wire, world: World, mode: VerifyMode, bytes: Bytes, p: Prepared, row: Row)
    returns (t: CompleteTrace, j: nat, s: Scrubbed)
    requires Prepare(wire, world, mode, bytes) == Ok(p) && row in Rows(p)
    ensures wire.parse(bytes).Ok? && t in wire.parse(bytes).value.events && j < |t.components|
    ensures Screen(wire, world, mode, wire.parse(bytes).value) == Ok(s)
    ensures row.payload == t.components[j].data
    ensures WellStamped(wire, world, mode, s.outcome, row)
  {
    var batch;
    batch, s := PreparedShape(wire, world, mode, bytes, p);
    ConcatOrigin(RowLists(p.outputs), row);
    var i :| 0 <= i < |p.outputs| && row in p.outputs[i].rows;
    t := batch.events[i];
    j := TraceRowOrigin(wire, world, mode, s.outcome, t, CopyAt(s.copy.events, i), p.outputs[i], row);
  }

  lemma TraceRowOrigin(wire: Wire, world: World, mode: VerifyMode, outcome: ScrubOutcome,
                       t: CompleteTrace, copy: Option<CompleteTrace>, out: TraceOutput, row: Row) returns (j: nat)
    requires PrepareTrace(wire, world, mode, outcome, t, copy) == Ok(out) && row in out.rows
    ensures j < |t.components| && row.payload == t.components[j].data && WellStamped(wire, world, mode, outcome, row)
  {
    TraceRows(wire, world, mode, outcome, t, copy, out);
    j :| 0 <= j < |out.rows| && out.rows[j] == row;
    RowCarriesComponent(wire, world, mode, outcome, t, copy, out, j);
  }

  /** Where a minted attestation comes from. */
  lemma AttestationOrigin(wire: Wire, world: World, mode: VerifyMode, bytes: Bytes, p: Prepared, a: AttestationInput)
    returns (t: CompleteTrace)
    requires Prepare(wire, world, mode, bytes) == Ok(p) && a in Attestations(p)
    ensures BuildAttestation(wire, t) == Ok(a)
  {
    var batch, s := PreparedShape(wire, world, mode, bytes, p);
    var i :| 0 <= i < |p.outputs| && p.outputs[i].attestation == a;
    TraceRows(wire, world, mode, s.outcome, batch.events[i], CopyAt(s.copy.events, i), p.outputs[i]);
    t := CopyAt(s.copy.events, i).value;
  }

  // ---------------------------------------------------------------- flat-index alignment

  /**
   The stored rows are the batch's components in document order: at the flat index
   of component `j` of trace `i` stands that component's payload, hash and signature,
   under the key that trace and component give.
   */
  lemma RowsFollowComponents(wire: Wire, world: World, mode: VerifyMode, bytes: Bytes, batch: Batch, p: Prepared, i: nat, j: nat)
    requires wire.parse(bytes) == Ok(batch) && Prepare(wire, world, mode, bytes) == Ok(p)
    requires i < |batch.events| && j < |batch.events[i].components|
    ensures |Rows(p)| == |Components(batch.events)|
    ensures var k := Offset(ComponentLists(batch.events), i) + j;
            && k < |Rows(p)|
            && Components(batch.events)[k] == batch.events[i].components[j]
            && CarriesComponent(wire, Rows(p)[k], batch.events[i].components[j])
            && CarriesTrace(batch.events[i], batch.events[i].components[j], Rows(p)[k])
  {
    var _, s := PreparedShape(wire, world, mode, bytes, p);
    var lists, rows := ComponentLists(batch.events), RowLists(p.outputs);
    forall n | 0 <= n < |rows| ensures |rows[n]| == |lists[n]| {
      TraceRows(wire, world, mode, s.outcome, batch.events[n], CopyAt(s.copy.events, n), p.outputs[n]);
    }
    ConcatsAlign(rows, lists, i, j);
    RowCarriesComponent(wire, world, mode, s.outcome, batch.events[i], CopyAt(s.copy.events, i), p.outputs[i], j);
  }

  ghost predicate CarriesComponent(wire: Wire, row: Row, c: Component) {
    && row.payload == c.data
    && row.scrub.Some?
    && Some(row.scrub.value.originalContentHash) == PayloadDigest(wire, c.data)
    && Some(row.scrub.value.signature.preimage.postContent) == PayloadDigest(wire, c.data)
  }

  lemma RowCarriesComponent(wire: Wire, world: World, mode: VerifyMode, outcome: ScrubOutcome,
                            t: CompleteTrace, copy: Option<CompleteTrace>, out: TraceOutput, j: nat)
    requires PrepareTrace(wire, world, mode, outcome, t, copy) == Ok(out) && j < |t.components|
    ensures |out.rows| == |t.components| && CarriesComponent(wire, out.rows[j], t.components[j]) && CarriesTrace(t, t.components[j], out.rows[j])
    ensures WellStamped(wire, world, mode, outcome, out.rows[j])
  {
    TraceRows(wire, world, mode, outcome, t, copy, out);
    DecomposeAligned(wire, t);
    StampVerifies(wire, world, mode, outcome, Decompose(wire, t).value.events[j], out.rows[j]);
    AttemptIndexIff(t, t.components[j], AttemptIndex(t, t.components[j]).value);
  }

  /** Components that carry different attempt indices are stored under different keys. */
  lemma IndicesSeparateKeys(wire: Wire, world: World, mode: VerifyMode, bytes: Bytes, batch: Batch, p: Prepared,
                            i: nat, j: nat, i': nat, j': nat)
    requires wire.parse(bytes) == Ok(batch) && Prepare(wire, world, mode, bytes) == Ok(p)
    requires i < |batch.events| && j < |batch.events[i].components| && i' < |batch.events| && j' < |batch.events[i'].components|
    requires var a, b := batch.events[i].components[j].data, batch.events[i'].components[j'].data;
             "attempt_index" in a && "attempt_index" in b && a["attempt_index"] != b["attempt_index"]
    ensures var k, k' := Offset(ComponentLists(batch.events), i) + j, Offset(ComponentLists(batch.events), i') + j';
            k < |Rows(p)| && k' < |Rows(p)| && Rows(p)[k].key != Rows(p)[k'].key
  {
    RowsFollowComponents(wire, world, mode, bytes, batch, p, i, j);
    RowsFollowComponents(wire, world, mode, bytes, batch, p, i', j');
  }

  /** The LLM rows a success stores, trace by trace: one for each call and none else, in order. */
  lemma LlmRowsFollowCalls(wire: Wire, world: World, mode: VerifyMode, bytes: Bytes, batch: Batch, p: Prepared, i: nat) returns (at: seq<nat>)
    requires wire.parse(bytes) == Ok(batch) && Prepare(wire, world, mode, bytes) == Ok(p) && i < |batch.events|
    ensures |p.outputs| == |batch.events| && LlmRows(p) == Concat(LlmLists(p.outputs)) && |at| == |p.outputs[i].llmCalls|
    ensures forall k, l :: 0 <= k < l < |at| ==> at[k] < at[l]
    ensures forall j: nat :: j in at <==> j < |batch.events[i].components| && MakesCall(wire, batch.events[i].components[j])
    ensures forall k :: 0 <= k < |at| ==>
              && at[k] < |batch.events[i].components| && MakesCall(wire, batch.events[i].components[at[k]])
              && CarriesCall(batch.events[i], batch.events[i].components[at[k]],
                             wire.llmCall(batch.events[i].components[at[k]]).value.value, p.outputs[i].llmCalls[k])
  {
    var _, s := PreparedShape(wire, world, mode, bytes, p);
    TraceRows(wire, world, mode, s.outcome, batch.events[i], CopyAt(s.copy.events, i), p.outputs[i]);
    at := LlmAligned(wire, batch.events[i]);
  }

  /** Lists of equal lengths stay aligned once concatenated. */
  lemma ConcatsAlign<A, B>(a: seq<seq<A>>, b: seq<seq<B>>, i: nat, j: nat)
    requires |a| == |b| && forall n :: 0 <= n < |a| ==> |a[n]| == |b[n]|
    requires i < |a| && j < |a[i]|
    ensures |Concat(a)| == |Concat(b)| > Offset(b, i) + j
    ensures Concat(a)[Offset(b, i) + j] == a[i][j] && Concat(b)[Offset(b, i) + j] == b[i][j]
  {
    SameOffsets(a, b, i);
    SameOffsets(a, b, |a|);
    ConcatLength(a);
    ConcatLength(b);
    ConcatAt(a, i, j);
    ConcatAt(b, i, j);
  }

  // ---------------------------------------------------------------- signatures

  /** A reader holding one row, and nothing else, can check its scrub signature. */
  ghost predicate VerifiesAlone(wire: Wire, row: Row) {
    && row.scrub.Some?
    && PayloadDigest(wire, row.payload).Some?
    && var e := row.scrub.value;
       e.signature == SignedBy(e.keyId,
                               PreimageV2(PayloadDigest(wire, row.payload).value, e.originalContentHash,
                                          e.nerRan, e.level, e.modelDigest, e.keyId, e.timestamp))
  }

  /** Everything the stamp and the gate leave true of a row, in terms of that row. */
  ghost predicate WellStamped(wire: Wire, world: World, mode: VerifyMode, outcome: ScrubOutcome, row: Row) {
    && VerifiesAlone(wire, row)
    && Some(row.scrub.value.originalContentHash) == PayloadDigest(wire, row.payload)
    && (row.scrub.value.nerRan, row.scrub.value.level, row.scrub.value.modelDigest, row.scrub.value.keyId) ==
       (outcome.nerRan, outcome.appliedLevel, outcome.modelDigest, world.signerKeyId)
    && row.scrub.value.timestamp == row.scrub.value.signature.preimage.instant == world.clock - world.clock % 1_000_000
    && row.source == (if mode == Full then ByPersist else ByEdge)
    && InScope(world.dir, world.signerKeyId, row)
  }

  lemma StampVerifies(wire: Wire, world: World, mode: VerifyMode, outcome: ScrubOutcome, base: Row, row: Row)
    requires StampAndGate(wire, world, mode, outcome, base) == Ok(row)
    ensures row.payload == base.payload && row.key == base.key && row.signingKeyId == base.signingKeyId
    ensures row.cohortScope == base.cohortScope && (base.cohortScope != "self" ==> row.cohortTarget == base.cohortTarget)
    ensures WellStamped(wire, world, mode, outcome, row)
  {
  }

  /**
   Every row a batch stores verifies from its own columns. Because the pipeline signs
   the batch it stores and not the scrubbed copy, the "original" hash of a row is
   always the hash of the payload standing beside it.
   */
  lemma RowsVerifyAlone(wire: Wire, world: World, mode: VerifyMode, bytes: Bytes, p: Prepared)
    requires Prepare(wire, world, mode, bytes) == Ok(p)
    ensures forall row <- Rows(p) ::
              VerifiesAlone(wire, row) && Some(row.scrub.value.originalContentHash) == PayloadDigest(wire, row.payload)
  {
    forall row <- Rows(p)
      ensures VerifiesAlone(wire, row) && Some(row.scrub.value.originalContentHash) == PayloadDigest(wire, row.payload)
    {
      var _, _, _ := RowOrigin(wire, world, mode, bytes, p, row);
    }
  }

  /** The signature binds the content and every statement about it: rewrite any one and it no longer verifies. */
  lemma SignatureBindsClaims(wire: Wire, a: Row, b: Row)
    requires VerifiesAlone(wire, a) && VerifiesAlone(wire, b)
    requires a.scrub.value.signature == b.scrub.value.signature
    ensures PayloadDigest(wire, a.payload) == PayloadDigest(wire, b.payload)
    ensures a.scrub.value.(timestamp := 0) == b.scrub.value.(timestamp := 0)
    ensures Truncate(a.scrub.value.timestamp) == Truncate(b.scrub.value.timestamp)
  {
  }

  // ---------------------------------------------------------------- the write-scope gate

  /** The writer's principal and its rosters were read, and the target is one of them. */
  ghost predicate OnRoster(who: Read<KeyId>, rosters: KeyId -> Read<set<KeyId>>, target: Option<KeyId>) {
    who.Got? && rosters(who.value).Got? && target.Some? && target.value in rosters(who.value).value
  }

  /** What the gate leaves true of an admitted row. */
  ghost predicate InScope(dir: Directory, signer: KeyId, row: Row) {
    && (row.cohortScope == "self" ==>
          dir.identityOf(signer).Got? && row.cohortTarget == Some(match dir.identityOf(signer).value case Some(i) => i case None => signer))
    && (row.cohortScope == "family" ==> OnRoster(dir.principalOf(signer), dir.families, row.cohortTarget))
    && (row.cohortScope == "community" || row.cohortScope == "affiliations" ==>
          OnRoster(dir.principalOf(signer), dir.communities, row.cohortTarget))
  }

  /** Both rosters of the writer can be read. */
  ghost predicate RostersRead(dir: Directory, signer: KeyId) {
    dir.principalOf(signer).Got? && dir.families(dir.principalOf(signer).value).Got? && dir.communities(dir.principalOf(signer).value).Got?
  }

  /** The gate on one kind of roster: who passes, and why the others do not. */
  ghost predicate RosterDecides(dir: Directory, signer: KeyId, row: Row, member: bool, holds: KeyId -> Read<bool>, refusal: ScopeRefusal, r: Result<Row, IngestError>) {
    r == if !RostersRead(dir, signer) then Err(Store)
         else if member then Ok(row)
         else if row.cohortTarget.None? then Err(ScopeRefused(refusal))
         else if holds(row.cohortTarget.value).Fault? then Err(Store)
         else if holds(row.cohortTarget.value) == Got(true) then Err(ScopeRefused(refusal))
         else Err(ScopeRefused(MembershipUnresolved))
  }

  /** The gate, scope by scope, on the directory: exactly which rows pass, how, and what the others are refused for. */
  lemma GateDecides(dir: Directory, signer: KeyId, row: Row)
    ensures row.cohortScope == "self" ==>
              GateRow(dir, signer, row) == match dir.identityOf(signer)
                                           case Fault => Err(Store)
                                           case Got(None) => Ok(row.(cohortTarget := Some(signer)))
                                           case Got(Some(i)) => Ok(row.(cohortTarget := Some(i)))
    ensures row.cohortScope == "family" ==>
              RosterDecides(dir, signer, row, OnRoster(dir.principalOf(signer), dir.families, row.cohortTarget),
                            dir.holdsFamily, NoFamilyMembership, GateRow(dir, signer, row))
    ensures row.cohortScope == "community" || row.cohortScope == "affiliations" ==>
              RosterDecides(dir, signer, row, OnRoster(dir.principalOf(signer), dir.communities, row.cohortTarget),
                            dir.holdsCommunity, NoCommunityMembership, GateRow(dir, signer, row))
    ensures row.cohortScope != "self" && row.cohortScope != "family" && row.cohortScope != "community" && row.cohortScope != "affiliations" ==>
              GateRow(dir, signer, row) == Ok(row)
  {
  }

  /** A batch with a row for a roster its writer is not on, or whose rosters cannot be read, is refused whole. */
  lemma OutsiderRefusesBatch(wire: Wire, world: World, mode: VerifyMode, bytes: Bytes, t: CompleteTrace)
    requires wire.parse(bytes).Ok? && t in wire.parse(bytes).value.events && t.components != []
    requires var who := world.dir.principalOf(world.signerKeyId);
             || (t.cohortScope == "family" && !OnRoster(who, world.dir.families, t.cohortTarget))
             || (t.cohortScope == "community" && !OnRoster(who, world.dir.communities, t.cohortTarget))
             || (t.cohortScope == "affiliations" && !OnRoster(who, world.dir.communities, t.cohortTarget))
    ensures Prepare(wire, world, mode, bytes).Err?
  {
    if Prepare(wire, world, mode, bytes).Ok? {
      var batch, p := wire.parse(bytes).value, Prepare(wire, world, mode, bytes).value;
      var i :| 0 <= i < |batch.events| && batch.events[i] == t;
      var row := StoredScope(wire, world, mode, bytes, batch, p, i);
    }
  }

  lemma StoredScope(wire: Wire, world: World, mode: VerifyMode, bytes: Bytes, batch: Batch, p: Prepared, i: nat) returns (row: Row)
    requires wire.parse(bytes) == Ok(batch) && Prepare(wire, world, mode, bytes) == Ok(p)
    requires i < |batch.events| && batch.events[i].components != []
    ensures InScope(world.dir, world.signerKeyId, row) && row.cohortScope == batch.events[i].cohortScope
    ensures row.cohortScope != "self" ==> row.cohortTarget == batch.events[i].cohortTarget
  {
    var _, s := PreparedShape(wire, world, mode, bytes, p);
    RowCarriesComponent(wire, world, mode, s.outcome, batch.events[i], CopyAt(s.copy.events, i), p.outputs[i], 0);
    row := p.outputs[i].rows[0];
  }

  /**
   Every stored row's target is the substrate's: a `self` row targets the identity
   resolved from the signer (or the signer itself), whatever the caller wrote, and a
   targeted row names a roster the writer is on.
   */
  lemma RowsInScope(wire: Wire, world: World, mode: VerifyMode, bytes: Bytes, p: Prepared)
    requires Prepare(wire, world, mode, bytes) == Ok(p)
    ensures forall row <- Rows(p) :: InScope(world.dir, world.signerKeyId, row)
    ensures forall row <- Rows(p) :: row.source == if mode == Full then ByPersist else ByEdge
  {
    forall row <- Rows(p)
      ensures InScope(world.dir, world.signerKeyId, row)
      ensures row.source == if mode == Full then ByPersist else ByEdge
    {
      var _, _, _ := RowOrigin(wire, world, mode, bytes, p, row);
    }
  }

  /** A `self` target the caller supplies never reaches storage. */
  lemma SelfTargetIgnoresCaller(wire: Wire, world: World, mode: VerifyMode, outcome: ScrubOutcome, row: Row, claimed: Option<KeyId>)
    requires row.cohortScope == SELF_SCOPE
    ensures StampAndGate(wire, world, mode, outcome, row.(cohortTarget := claimed)) == StampAndGate(wire, world, mode, outcome, row)
  {
  }

  /** The rows a batch decomposes to, flat, each stamped and gated to the stored row at its index. */
  lemma RowsAreGated(wire: Wire, world: World, mode: VerifyMode, bytes: Bytes, p: Prepared) returns (s: Scrubbed)
    requires Prepare(wire, world, mode, bytes) == Ok(p)
    ensures wire.parse(bytes).Ok? && world.scrub(wire.parse(bytes).value) == Some(s)
    ensures Gated(wire, world, mode, s.outcome, Concat(BaseRows(wire, wire.parse(bytes).value.events)), Rows(p))
  {
    var batch;
    batch, s := PreparedShape(wire, world, mode, bytes, p);
    var base, rows := BaseRows(wire, batch.events), RowLists(p.outputs);
    forall i | 0 <= i < |rows| ensures Gated(wire, world, mode, s.outcome, base[i], rows[i]) {
      TraceRows(wire, world, mode, s.outcome, batch.events[i], CopyAt(s.copy.events, i), p.outputs[i]);
    }
    ConcatGated(wire, world, mode, s.outcome, base, rows);
  }

  ghost predicate Gated(wire: Wire, world: World, mode: VerifyMode, outcome: ScrubOutcome, base: seq<Row>, rows: seq<Row>) {
    |base| == |rows| && forall k :: 0 <= k < |base| ==> StampAndGate(wire, world, mode, outcome, base[k]) == Ok(rows[k])
  }

  lemma {:induction false} ConcatGated(wire: Wire, world: World, mode: VerifyMode, outcome: ScrubOutcome, base: seq<seq<Row>>, rows: seq<seq<Row>>)
    requires |base| == |rows| && forall i :: 0 <= i < |base| ==> Gated(wire, world, mode, outcome, base[i], rows[i])
    ensures Gated(wire, world, mode, outcome, Concat(base), Concat(rows))
  {
    if base != [] {
      ConcatGated(wire, world, mode, outcome, base[1..], rows[1..]);
      assert Gated(wire, world, mode, outcome, base[0], rows[0]);
      GatedAppend(wire, world, mode, outcome, base[0], rows[0], Concat(base[1..]), Concat(rows[1..]));
    }
  }

  lemma GatedAppend(wire: Wire, world: World, mode: VerifyMode, outcome: ScrubOutcome, a: seq<Row>, a': seq<Row>, b: seq<Row>, b': seq<Row>)
    requires Gated(wire, world, mode, outcome, a, a') && Gated(wire, world, mode, outcome, b, b')
    ensures Gated(wire, world, mode, outcome, a + b, a' + b')
  {
    var gate := (row: Row) => StampAndGate(wire, world, mode, outcome, row);
    assert forall k :: 0 <= k < |a| ==> gate(a[k]) == Ok(a'[k]);
    assert forall k :: 0 <= k < |b| ==> gate(b[k]) == Ok(b'[k]);
    assert forall k :: 0 <= k < |a + b| ==> gate((a + b)[k]) == Ok((a' + b')[k]);
  }

  /** Rows that differ in the target a caller wrote on a `self` row, and in nothing else. */
  ghost predicate SameButSelfTarget(a: Row, b: Row) {
    a == b || (a.cohortScope == SELF_SCOPE && b == a.(cohortTarget := b.cohortTarget))
  }

  /**
   Two batches that differ only in the targets their callers wrote on `self` rows are
   stored alike: no such target reaches storage.
   */
  lemma CallerTargetsDoNotCount(wire: Wire, world: World, mode: VerifyMode, bytes: Bytes, p: Prepared, bytes': Bytes, p': Prepared)
    requires Prepare(wire, world, mode, bytes) == Ok(p) && Prepare(wire, world, mode, bytes') == Ok(p')
    requires world.scrub(wire.parse(bytes).value).value.outcome == world.scrub(wire.parse(bytes').value).value.outcome
    requires var a, b := Concat(BaseRows(wire, wire.parse(bytes).value.events)), Concat(BaseRows(wire, wire.parse(bytes').value.events));
             |a| == |b| && forall k :: 0 <= k < |a| ==> SameButSelfTarget(a[k], b[k])
    ensures Rows(p) == Rows(p')
  {
    var s := RowsAreGated(wire, world, mode, bytes, p);
    var s' := RowsAreGated(wire, world, mode, bytes', p');
    var a, b := Concat(BaseRows(wire, wire.parse(bytes).value.events)), Concat(BaseRows(wire, wire.parse(bytes').value.events));
    forall k | 0 <= k < |a| ensures Rows(p)[k] == Rows(p')[k] {
      assert SameButSelfTarget(a[k], b[k]);
      if a[k] != b[k] {
        SelfTargetIgnoresCaller(wire, world, mode, s.outcome, a[k], b[k].cohortTarget);
      }
      assert Ok(Rows(p)[k]) == StampAndGate(wire, world, mode, s.outcome, a[k]) == Ok(Rows(p')[k]);
    }
  }

  // ---------------------------------------------------------------- the privacy split

  /** The rows every decomposition of this batch yields, before stamping. */
  function BaseRows(wire: Wire, events: seq<CompleteTrace>): seq<seq<Row>> {
    seq(|events|, i requires 0 <= i < |events| => match Decompose(wire, events[i]) case Ok(d) => d.events case Err(_) => [])
  }

  /** The LLM rows every decomposition of this batch yields. */
  function BaseLlm(wire: Wire, events: seq<CompleteTrace>): (r: seq<seq<LlmRow>>)
    ensures |r| == |events|
  {
    seq(|events|, i requires 0 <= i < |events| => match Decompose(wire, events[i]) case Ok(d) => d.llmCalls case Err(_) => [])
  }

  lemma LlmFollowsDecompose(wire: Wire, world: World, mode: VerifyMode, bytes: Bytes, p: Prepared)
    requires Prepare(wire, world, mode, bytes) == Ok(p)
    ensures wire.parse(bytes).Ok? && LlmRows(p) == Concat(BaseLlm(wire, wire.parse(bytes).value.events))
  {
    var batch, s := PreparedShape(wire, world, mode, bytes, p);
    forall i | 0 <= i < |batch.events| ensures LlmLists(p.outputs)[i] == BaseLlm(wire, batch.events)[i] {
      TraceRows(wire, world, mode, s.outcome, batch.events[i], CopyAt(s.copy.events, i), p.outputs[i]);
    }
    assert LlmLists(p.outputs) == BaseLlm(wire, batch.events);
  }

  lemma RowsFollowDecompose(wire: Wire, world: World, mode: VerifyMode, bytes: Bytes, p: Prepared)
    requires Prepare(wire, world, mode, bytes) == Ok(p)
    ensures wire.parse(bytes).Ok?
    ensures var base := Concat(BaseRows(wire, wire.parse(bytes).value.events));
            && |Rows(p)| == |base|
            && forall k :: 0 <= k < |base| ==> Rows(p)[k].payload == base[k].payload && Rows(p)[k].key == base[k].key
  {
    var batch, s := PreparedShape(wire, world, mode, bytes, p);
    var a: seq<seq<Row>> := RowLists(p.outputs);
    var b: seq<seq<Row>> := BaseRows(wire, batch.events);
    forall i | 0 <= i < |a|
      ensures |a[i]| == |b[i]|
      ensures forall j :: 0 <= j < |a[i]| ==> a[i][j].payload == b[i][j].payload && a[i][j].key == b[i][j].key
    {
      TraceRows(wire, world, mode, s.outcome, batch.events[i], CopyAt(s.copy.events, i), p.outputs[i]);
      forall j | 0 <= j < |a[i]| ensures a[i][j].payload == b[i][j].payload && a[i][j].key == b[i][j].key {
        StampVerifies(wire, world, mode, s.outcome, b[i][j], a[i][j]);
      }
    }
    ConcatAgrees(a, b);
  }

  lemma {:induction false} ConcatAgrees(a: seq<seq<Row>>, b: seq<seq<Row>>)
    requires |a| == |b|
    requires forall i :: 0 <= i < |a| ==> |a[i]| == |b[i]|
    requires forall i, j :: 0 <= i < |a| && 0 <= j < |a[i]| ==> a[i][j].payload == b[i][j].payload && a[i][j].key == b[i][j].key
    ensures |Concat(a)| == |Concat(b)|
    ensures forall k :: 0 <= k < |Concat(a)| ==> Concat(a)[k].payload == Concat(b)[k].payload && Concat(a)[k].key == Concat(b)[k].key
  {
    if a != [] {
      ConcatAgrees(a[1..], b[1..]);
    }
  }

  /**
   The node's record is never redacted: two successful attempts at the same bytes store
   the same payloads under the same keys, whatever scrubber, directory, signer or mode they met.
   */
  lemma RecordIgnoresScrubber(wire: Wire, w1: World, m1: VerifyMode, w2: World, m2: VerifyMode, bytes: Bytes, p1: Prepared, p2: Prepared)
    requires Prepare(wire, w1, m1, bytes) == Ok(p1) && Prepare(wire, w2, m2, bytes) == Ok(p2)
    ensures |Rows(p1)| == |Rows(p2)|
    ensures forall k :: 0 <= k < |Rows(p1)| ==> Rows(p1)[k].payload == Rows(p2)[k].payload && Rows(p1)[k].key == Rows(p2)[k].key
    ensures LlmRows(p1) == LlmRows(p2)
  {
    RowsFollowDecompose(wire, w1, m1, bytes, p1);
    RowsFollowDecompose(wire, w2, m2, bytes, p2);
    LlmFollowsDecompose(wire, w1, m1, bytes, p1);
    LlmFollowsDecompose(wire, w2, m2, bytes, p2);
  }

  /**
   What leaves the node is the scrubbed copy alone: attempts over different batches
   whose scrubbed copies coincide mint the same attestations.
   */
  lemma AttestationsIgnoreRecord(wire: Wire, w1: World, m1: VerifyMode, b1: Bytes, p1: Prepared, w2: World, m2: VerifyMode, b2: Bytes, p2: Prepared)
    requires Prepare(wire, w1, m1, b1) == Ok(p1) && Prepare(wire, w2, m2, b2) == Ok(p2)
    requires w1.scrub(wire.parse(b1).value).value.copy.events == w2.scrub(wire.parse(b2).value).value.copy.events
    requires |wire.parse(b1).value.events| == |wire.parse(b2).value.events|
    ensures Attestations(p1) == Attestations(p2)
  {
    var e1, s1 := PreparedShape(wire, w1, m1, b1, p1);
    var e2, s2 := PreparedShape(wire, w2, m2, b2, p2);
    forall i | 0 <= i < |p1.outputs| ensures p1.outputs[i].attestation == p2.outputs[i].attestation {
      TraceRows(wire, w1, m1, s1.outcome, e1.events[i], CopyAt(s1.copy.events, i), p1.outputs[i]);
      TraceRows(wire, w2, m2, s2.outcome, e2.events[i], CopyAt(s2.copy.events, i), p2.outputs[i]);
    }
  }

  /**
   A receiver that projects an inline attestation gets exactly the decomposition of the
   scrubbed trace; a manifest projects to nothing; and both shapes carry its signed run kind.
   */
  lemma AttestationProjects(wire: Wire, t: CompleteTrace, input: AttestationInput)
    requires BuildAttestation(wire, t) == Ok(input)
    ensures wire.inlineBytes(t).Some? && Describes(wire.inlineBytes(t).value, t, input)
    ensures ProjectEvents(wire, input.envelope) ==
              if |wire.inlineBytes(t).value| > 1_048_576 then None
              else match Decompose(wire, t) case Ok(d) => Some(d) case Err(_) => None
  {
  }

  /** The attestation of a trace whose inline form has these bytes: the trace itself up to a mebibyte, a manifest of it past that. */
  ghost predicate Describes(bytes: Bytes, t: CompleteTrace, a: AttestationInput) {
    && a.id == AttestationId(t.traceId) && a.attester == t.signatureKeyId
    && a.envelope.traceId == t.traceId && a.envelope.agentIdHash == t.agentIdHash
    && EnvelopeRunKind(a.envelope) == (if t.runKind.Some? then t.runKind else t.profileRunKind)
    && (a.envelope.Inline? <==> |bytes| <= 1_048_576)
    && (a.envelope.Inline? ==> a.envelope.trace == t)
    && (a.envelope.Manifest? ==>
          a.envelope.contentHash == Sha256(bytes) && a.envelope.byteLen == |bytes| && a.envelope.componentCount == |t.components|)
  }

  /** The scrubbed trace `i` of a success, and the attestation minted from it. */
  lemma AttestationsProject(wire: Wire, world: World, mode: VerifyMode, bytes: Bytes, p: Prepared, i: nat) returns (t: CompleteTrace)
    requires Prepare(wire, world, mode, bytes) == Ok(p) && i < |p.outputs|
    ensures wire.parse(bytes).Ok? && world.scrub(wire.parse(bytes).value).Some?
    ensures CopyAt(world.scrub(wire.parse(bytes).value).value.copy.events, i) == Some(t) && wire.inlineBytes(t).Some?
    ensures var a := Attestations(p)[i];
            && Describes(wire.inlineBytes(t).value, t, a)
            && ProjectEvents(wire, a.envelope) ==
               if |wire.inlineBytes(t).value| > 1_048_576 then None
               else match Decompose(wire, t) case Ok(d) => Some(d) case Err(_) => None
  {
    var batch, s := PreparedShape(wire, world, mode, bytes, p);
    TraceRows(wire, world, mode, s.outcome, batch.events[i], CopyAt(s.copy.events, i), p.outputs[i]);
    t := CopyAt(s.copy.events, i).value;
    AttestationProjects(wire, t, Attestations(p)[i]);
  }

  // ---------------------------------------------------------------- gates before the first write

  /** The PQC public key the directory, never the payload, supplies for a trace. */
  ghost function DirectoryPqcKey(dir: Directory, t: CompleteTrace): Option<string> {
    if t.pqcSignature.None? || t.pqcKeyId.None? then None
    else match dir.record(t.pqcKeyId.value) case Got(Some(r)) => r.pqcPublicKey case _ => None
  }

  ghost predicate SignerIsPerson(dir: Directory, t: CompleteTrace) {
    match dir.record(t.signatureKeyId) case Got(Some(r)) => r.isPerson case _ => false
  }

  /** Both halves of the trace's signature were accepted, under keys the directory holds. */
  ghost predicate VerifiedByDirectory(wire: Wire, dir: Directory, t: CompleteTrace) {
    && dir.publicKey(t.signatureKeyId).Got? && dir.publicKey(t.signatureKeyId).value.Some?
    && (t.pqcSignature.Some? ==> DirectoryPqcKey(dir, t).Some?)
    && wire.hybrid(t, dir.publicKey(t.signatureKeyId).value.value, DirectoryPqcKey(dir, t)) == Accepted
  }

  /** Every key the trace's signatures need is in the directory. */
  ghost predicate KeysThere(dir: Directory, t: CompleteTrace) {
    && dir.publicKey(t.signatureKeyId).Got? && dir.publicKey(t.signatureKeyId).value.Some?
    && (t.pqcSignature.Some? ==> DirectoryPqcKey(dir, t).Some?)
  }

  lemma VerifyTraceMeans(wire: Wire, dir: Directory, t: CompleteTrace)
    ensures VerifyTrace(wire, dir, t).Ok? <==> VerifiedByDirectory(wire, dir, t)
  {
  }

  /** Why a trace does not verify: a key that is not there, a half that is missing, or a signature that does not match. */
  lemma VerifyFailsWith(wire: Wire, dir: Directory, t: CompleteTrace)
    ensures VerifyTrace(wire, dir, t) == Err(Store) <==> dir.publicKey(t.signatureKeyId).Fault?
    ensures VerifyTrace(wire, dir, t) == Err(Verify(UnknownKey)) <==>
              !dir.publicKey(t.signatureKeyId).Fault? && !PqcReadFaults(dir, t) && !KeysThere(dir, t)
    ensures VerifyTrace(wire, dir, t) == Err(Verify(HybridRequired)) <==>
              KeysThere(dir, t) && wire.hybrid(t, dir.publicKey(t.signatureKeyId).value.value, DirectoryPqcKey(dir, t)) == PendingRejected
    ensures VerifyTrace(wire, dir, t) == Err(Verify(HybridVerify)) <==>
              || PqcReadFaults(dir, t)
              || (KeysThere(dir, t) && wire.hybrid(t, dir.publicKey(t.signatureKeyId).value.value, DirectoryPqcKey(dir, t)) == Mismatch)
  {
  }

  lemma ScreenAdmits(wire: Wire, world: World, mode: VerifyMode, batch: Batch)
    requires Screen(wire, world, mode, batch).Ok?
    ensures forall t <- batch.events :: (mode == Full ==> VerifyTrace(wire, world.dir, t).Ok?) && RefuseTrace(world.dir, t).Ok?
  {
  }

  /** A Full-mode success verified every trace of the batch; no other mode claims it did. */
  lemma FullModeVerifies(wire: Wire, world: World, mode: VerifyMode, bytes: Bytes, p: Prepared)
    requires Prepare(wire, world, mode, bytes) == Ok(p)
    ensures wire.parse(bytes).Ok?
    ensures p.signaturesVerified == if mode == Full then |wire.parse(bytes).value.events| else 0
    ensures mode == Full ==> forall t <- wire.parse(bytes).value.events :: VerifiedByDirectory(wire, world.dir, t)
  {
    var batch, s := PreparedShape(wire, world, mode, bytes, p);
    ScreenAdmits(wire, world, mode, batch);
    forall t <- batch.events ensures mode == Full ==> VerifiedByDirectory(wire, world.dir, t) {
      VerifyTraceMeans(wire, world.dir, t);
    }
  }

  /** The trace says it is a mock run: by its own run kind, or by its profile's where it has none. */
  ghost predicate SaysMock(t: CompleteTrace) {
    t.runKind == Some("mock") || (t.runKind.None? && t.profileRunKind == Some("mock"))
  }

  ghost predicate NodeIs(dir: Directory, canonical: Read<bool>) {
    if dir.nodeKey.None? then canonical == Got(false) else dir.isCanonical(dir.nodeKey.value) == canonical
  }

  /** The named grounds a trace must clear. */
  ghost predicate ClearsNamedGrounds(dir: Directory, t: CompleteTrace) {
    && (SaysMock(t) ==> NodeIs(dir, Got(false)))
    && (dir.tombstone(t.traceId).Notice? ==> SignerIsPerson(dir, t))
    && !dir.tombstone(t.traceId).TombstoneFault?
  }

  /** Exactly when a trace is refused on named grounds, and under which name. */
  lemma RefuseTraceMeans(dir: Directory, t: CompleteTrace)
    ensures RefuseTrace(dir, t).Ok? <==> ClearsNamedGrounds(dir, t)
    ensures RefuseTrace(dir, t) == Err(Store) <==>
              || dir.tombstone(t.traceId).TombstoneFault?
              || (dir.tombstone(t.traceId).Notice? && dir.record(t.signatureKeyId).Fault?)
              || ((dir.tombstone(t.traceId).Notice? ==> SignerIsPerson(dir, t)) && SaysMock(t) && NodeIs(dir, Fault))
    ensures RefuseTrace(dir, t) == Err(Verify(UnknownKey)) <==> dir.tombstone(t.traceId).Notice? && dir.record(t.signatureKeyId) == Got(None)
    ensures RefuseTrace(dir, t) == Err(TraceRefused("purge_tombstoned", t.traceId)) <==>
              && dir.tombstone(t.traceId).Notice?
              && dir.record(t.signatureKeyId).Got? && dir.record(t.signatureKeyId).value.Some? && !SignerIsPerson(dir, t)
    ensures RefuseTrace(dir, t) == Err(TraceRefused("trace_run_kind_mock", t.traceId)) <==>
              && SaysMock(t) && NodeIs(dir, Got(true))
              && !dir.tombstone(t.traceId).TombstoneFault? && (dir.tombstone(t.traceId).Notice? ==> SignerIsPerson(dir, t))
  {
    assert "purge_tombstoned"[0] != "trace_run_kind_mock"[0];
  }

  /** No success on a canonical node holds a mock trace, and none anywhere holds a tombstoned one of a non-person. */
  lemma NamedRefusalsHold(wire: Wire, world: World, mode: VerifyMode, bytes: Bytes, p: Prepared)
    requires Prepare(wire, world, mode, bytes) == Ok(p)
    ensures wire.parse(bytes).Ok? && forall t <- wire.parse(bytes).value.events :: ClearsNamedGrounds(world.dir, t)
  {
    var batch, s := PreparedShape(wire, world, mode, bytes, p);
    ScreenAdmits(wire, world, mode, batch);
    forall t <- batch.events ensures ClearsNamedGrounds(world.dir, t) {
      RefuseTraceMeans(world.dir, t);
    }
  }

  /** No success mints from a full-traces batch that had no named-entity pass. */
  lemma TreatmentMatchesLabel(wire: Wire, world: World, mode: VerifyMode, bytes: Bytes, p: Prepared)
    requires Prepare(wire, world, mode, bytes) == Ok(p)
    ensures forall row <- Rows(p) :: row.scrub.Some? && (row.scrub.value.level == "full_traces" ==> row.scrub.value.nerRan)
  {
    var batch, s := PreparedShape(wire, world, mode, bytes, p);
    forall row <- Rows(p) ensures row.scrub.Some? && (row.scrub.value.level == "full_traces" ==> row.scrub.value.nerRan) {
      var _, _, _ := RowOrigin(wire, world, mode, bytes, p, row);
    }
  }

  /** The classical key of a trace is there and the read of its PQC key faults. */
  ghost predicate PqcReadFaults(dir: Directory, t: CompleteTrace) {
    && dir.publicKey(t.signatureKeyId).Got? && dir.publicKey(t.signatureKeyId).value.Some?
    && t.pqcSignature.Some? && t.pqcKeyId.Some? && dir.record(t.pqcKeyId.value).Fault?
  }

  /**
   A batch whose traces verify up to the i-th, which does not: the batch is to be retried
   exactly when that trace's classical key read faulted, and a fault on its PQC key read
   refuses the whole batch for good instead.
   */
  lemma BatchRetriesIff(wire: Wire, world: World, bytes: Bytes, batch: Batch, i: nat)
    requires wire.parse(bytes) == Ok(batch) && i < |batch.events| && VerifyTrace(wire, world.dir, batch.events[i]).Err?
    requires forall k :: 0 <= k < i ==> VerifyTrace(wire, world.dir, batch.events[k]).Ok?
    ensures Prepare(wire, world, Full, bytes) == Err(VerifyTrace(wire, world.dir, batch.events[i]).error)
    ensures Prepare(wire, world, Full, bytes) == Err(Store) <==> world.dir.publicKey(batch.events[i].signatureKeyId).Fault?
    ensures PqcReadFaults(world.dir, batch.events[i]) ==> Prepare(wire, world, Full, bytes) == Err(Verify(HybridVerify))
  {
    var e := VerifyTrace(wire, world.dir, batch.events[i]).error;
    forall k | 0 <= k < i ensures VerifyStep(wire, world.dir)(batch.events[k]).Ok? {
      assert VerifyStep(wire, world.dir)(batch.events[k]) == VerifyTrace(wire, world.dir, batch.events[k]);
    }
    assert VerifyStep(wire, world.dir)(batch.events[i]) == Err(e);
    TraverseStops(batch.events, VerifyStep(wire, world.dir), i, e);
    VerifyFailsWith(wire, world.dir, batch.events[i]);
  }

  // ---------------------------------------------------------------- exactly which batches are admitted

  ghost predicate Canonical(wire: Wire, c: Component) {
    wire.canonicalize(JObject(c.data)).Some?
  }

  /** The writer may write under this scope and target. */
  ghost predicate ScopeOpen(dir: Directory, signer: KeyId, scope: string, target: Option<KeyId>) {
    && (scope == "self" ==> dir.identityOf(signer).Got?)
    && (scope == "family" ==> RostersRead(dir, signer) && OnRoster(dir.principalOf(signer), dir.families, target))
    && (scope == "community" || scope == "affiliations" ==>
          RostersRead(dir, signer) && OnRoster(dir.principalOf(signer), dir.communities, target))
  }

  ghost predicate Attestable(wire: Wire, t: CompleteTrace) {
    && wire.serializes(t) && wire.inlineBytes(t).Some?
    && var bytes, kind := wire.inlineBytes(t).value, if t.runKind.Some? then t.runKind else t.profileRunKind;
       wire.envelopeParses(if |bytes| > 1_048_576
                           then Manifest(t.traceId, t.agentIdHash, Sha256(bytes), |bytes|, |t.components|, kind)
                           else Inline(t.traceId, t.agentIdHash, t))
  }

  /** What one trace and its scrubbed copy must meet. */
  ghost predicate TracePasses(wire: Wire, world: World, t: CompleteTrace, copy: Option<CompleteTrace>) {
    && (forall c <- t.components :: Reads(wire, t, c) && Canonical(wire, c))
    && (t.components != [] ==> ScopeOpen(world.dir, world.signerKeyId, t.cohortScope, t.cohortTarget))
    && copy.Some? && Attestable(wire, copy.value)
  }

  /** What the scrubber and the signer must give. */
  ghost predicate Treated(world: World, batch: Batch) {
    && world.scrub(batch).Some?
    && (world.scrub(batch).value.outcome.appliedLevel == "full_traces" ==> world.scrub(batch).value.outcome.nerRan)
    && (world.signerFailsAt.None? || |Components(batch.events)| == 0 || |Components(batch.events)| <= world.signerFailsAt.value)
  }

  ghost predicate TraceAdmitted(wire: Wire, world: World, mode: VerifyMode, batch: Batch, i: nat)
    requires i < |batch.events| && world.scrub(batch).Some?
  {
    && (mode == Full ==> VerifiedByDirectory(wire, world.dir, batch.events[i])) && ClearsNamedGrounds(world.dir, batch.events[i])
    && TracePasses(wire, world, batch.events[i], CopyAt(world.scrub(batch).value.copy.events, i))
  }

  /**
   A batch is admitted exactly when it parses, the scrubber and the signer give what they
   must, and every trace verifies under directory keys (in Full mode), clears the named
   grounds, can be read and hashed component by component, may be written by this node
   under its scope, and has a scrubbed copy that can be attested.
   */
  lemma AdmittedIff(wire: Wire, world: World, mode: VerifyMode, bytes: Bytes)
    ensures Prepare(wire, world, mode, bytes).Ok? <==>
              && wire.parse(bytes).Ok? && Treated(world, wire.parse(bytes).value)
              && forall i :: 0 <= i < |wire.parse(bytes).value.events| ==> TraceAdmitted(wire, world, mode, wire.parse(bytes).value, i)
  {
    if wire.parse(bytes).Ok? {
      var batch := wire.parse(bytes).value;
      ScreenIff(wire, world, mode, batch);
      if world.scrub(batch).Some? {
        AssembleIff(wire, world, mode, batch, world.scrub(batch).value);
        BatchAdmittedIff(wire, world, mode, batch);
      }
    }
  }

  /** Steps 2 to 6 over the whole batch, trace by trace. */
  lemma BatchAdmittedIff(wire: Wire, world: World, mode: VerifyMode, batch: Batch)
    requires world.scrub(batch).Some?
    ensures var s := world.scrub(batch).value;
            (ScreensAll(wire, world, mode, batch) && forall i :: 0 <= i < |batch.events| ==> TracePasses(wire, world, batch.events[i], CopyAt(s.copy.events, i)))
            <==> forall i :: 0 <= i < |batch.events| ==> TraceAdmitted(wire, world, mode, batch, i)
  {
    var s := world.scrub(batch).value;
    if forall i :: 0 <= i < |batch.events| ==> TraceAdmitted(wire, world, mode, batch, i) {
      forall t <- batch.events ensures Screened(wire, world, mode, t) {
        var i :| 0 <= i < |batch.events| && batch.events[i] == t;
        assert TraceAdmitted(wire, world, mode, batch, i);
      }
      forall i | 0 <= i < |batch.events| ensures TracePasses(wire, world, batch.events[i], CopyAt(s.copy.events, i)) {
        assert TraceAdmitted(wire, world, mode, batch, i);
      }
    } else {
      var i :| 0 <= i < |batch.events| && !TraceAdmitted(wire, world, mode, batch, i);
      assert batch.events[i] in batch.events;
    }
  }

  ghost predicate Screened(wire: Wire, world: World, mode: VerifyMode, t: CompleteTrace) {
    && (mode == Full ==> VerifiedByDirectory(wire, world.dir, t)) && ClearsNamedGrounds(world.dir, t)
    && forall c <- t.components :: Canonical(wire, c)
  }

  ghost predicate ScreensAll(wire: Wire, world: World, mode: VerifyMode, batch: Batch) {
    forall t <- batch.events :: Screened(wire, world, mode, t)
  }

  lemma ScreenIff(wire: Wire, world: World, mode: VerifyMode, batch: Batch)
    ensures Screen(wire, world, mode, batch).Ok? <==> Treated(world, batch) && ScreensAll(wire, world, mode, batch)
    ensures Screen(wire, world, mode, batch).Ok? ==> Screen(wire, world, mode, batch).value == world.scrub(batch).value
  {
    AdmittedTraces(wire, world, mode, batch);
    DigestsIff(wire, batch.events);
  }

  lemma AdmittedTraces(wire: Wire, world: World, mode: VerifyMode, batch: Batch)
    ensures Admitted(wire, world, mode, batch).Ok? <==>
              forall t <- batch.events :: (mode == Full ==> VerifiedByDirectory(wire, world.dir, t)) && ClearsNamedGrounds(world.dir, t)
  {
    forall t ensures VerifyStep(wire, world.dir)(t).Ok? <==> VerifiedByDirectory(wire, world.dir, t) {
      VerifyTraceMeans(wire, world.dir, t);
    }
    forall t ensures RefuseStep(world.dir)(t).Ok? <==> ClearsNamedGrounds(world.dir, t) {
      RefuseTraceMeans(world.dir, t);
    }
    TraverseOkIff(batch.events, VerifyStep(wire, world.dir));
    TraverseOkIff(batch.events, RefuseStep(world.dir));
  }

  lemma TraverseOkIff<T, U, E>(items: seq<T>, f: T -> Result<U, E>)
    ensures Traverse(items, f).Ok? <==> forall x <- items :: f(x).Ok?
  {
    if Traverse(items, f).Ok? {
      forall x <- items ensures f(x).Ok? {
        var i :| 0 <= i < |items| && items[i] == x;
      }
    } else {
      var i :| 0 <= i < |items| && f(items[i]).Err?;
      assert items[i] in items;
    }
  }

  lemma DigestsIff(wire: Wire, events: seq<CompleteTrace>)
    ensures var r := Traverse(Components(events), DigestStep(wire));
            && (r.Ok? <==> forall t <- events :: forall c <- t.components :: Canonical(wire, c))
            && (r.Ok? ==> |r.value| == |Components(events)|)
  {
    TraverseOkIff(Components(events), DigestStep(wire));
    assert forall c :: DigestStep(wire)(c).Ok? <==> Canonical(wire, c);
    forall c ensures c in Components(events) <==> exists i :: 0 <= i < |events| && c in events[i].components {
      ConcatOrigin(ComponentLists(events), c);
      assert forall i :: 0 <= i < |events| ==> ComponentLists(events)[i] == events[i].components;
    }
    if forall t <- events :: forall c <- t.components :: Canonical(wire, c) {
      forall c <- Components(events) ensures Canonical(wire, c) {
        var i :| 0 <= i < |events| && c in events[i].components;
        assert events[i] in events;
      }
    } else {
      var t :| t in events && !forall c <- t.components :: Canonical(wire, c);
      var c :| c in t.components && !Canonical(wire, c);
      var i :| 0 <= i < |events| && events[i] == t;
      assert c in Components(events);
    }
  }

  lemma RowPassesIff(wire: Wire, world: World, mode: VerifyMode, outcome: ScrubOutcome, row: Row)
    ensures StampAndGate(wire, world, mode, outcome, row).Ok? <==>
              && wire.canonicalize(JObject(row.payload)).Some?
              && ScopeOpen(world.dir, world.signerKeyId, row.cohortScope, row.cohortTarget)
  {
    var d := PayloadDigest(wire, row.payload);
    if d.Some? {
      GateDecides(world.dir, world.signerKeyId, Stamp(row, EnvelopeOf(world, outcome, d.value), mode));
    }
  }

  lemma TracePassesIff(wire: Wire, world: World, mode: VerifyMode, outcome: ScrubOutcome, t: CompleteTrace, copy: Option<CompleteTrace>)
    requires forall c <- t.components :: Canonical(wire, c)
    ensures PrepareTrace(wire, world, mode, outcome, t, copy).Ok? <==> TracePasses(wire, world, t, copy)
  {
    DecomposesIff(wire, t);
    if Decompose(wire, t).Ok? {
      RowsPassIff(wire, world, mode, outcome, t);
    }
  }

  lemma RowsPassIff(wire: Wire, world: World, mode: VerifyMode, outcome: ScrubOutcome, t: CompleteTrace)
    requires Decompose(wire, t).Ok? && forall c <- t.components :: Canonical(wire, c)
    ensures Traverse(Decompose(wire, t).value.events, RowStep(wire, world, mode, outcome)).Ok? <==>
              (t.components != [] ==> ScopeOpen(world.dir, world.signerKeyId, t.cohortScope, t.cohortTarget))
  {
    DecomposeAligned(wire, t);
    var rows := Decompose(wire, t).value.events;
    forall j | 0 <= j < |rows|
      ensures RowStep(wire, world, mode, outcome)(rows[j]).Ok? <==> ScopeOpen(world.dir, world.signerKeyId, t.cohortScope, t.cohortTarget)
    {
      assert t.components[j] in t.components;
      RowPassesIff(wire, world, mode, outcome, rows[j]);
    }
  }

  lemma AssembleIff(wire: Wire, world: World, mode: VerifyMode, batch: Batch, s: Scrubbed)
    ensures ScreensAll(wire, world, mode, batch) ==>
              (Assemble(wire, world, mode, batch, s).Ok? <==>
                 forall i :: 0 <= i < |batch.events| ==> TracePasses(wire, world, batch.events[i], CopyAt(s.copy.events, i)))
  {
    if ScreensAll(wire, world, mode, batch) {
      var items := Beside(batch.events, s.copy.events);
      forall i | 0 <= i < |items|
        ensures TraceStep(wire, world, mode, s.outcome)(items[i]).Ok? <==> TracePasses(wire, world, batch.events[i], CopyAt(s.copy.events, i))
      {
        assert batch.events[i] in batch.events && Screened(wire, world, mode, batch.events[i]);
        TracePassesIff(wire, world, mode, s.outcome, batch.events[i], CopyAt(s.copy.events, i));
      }
    }
  }

  // ---------------------------------------------------------------- the tables

  ghost function KeysOf(rows: seq<Row>): set<EventKey> {
    set r <- rows :: r.key
  }

  lemma KeysOfCons(rows: seq<Row>)
    requires rows != []
    ensures KeysOf(rows) == {rows[0].key} + KeysOf(rows[1..])
  {
  }

  /** Inserting adds exactly the rows' keys and never touches a row already stored. */
  lemma {:induction false} InsertRowsKeys(events: map<EventKey, Row>, rows: seq<Row>)
    ensures InsertRows(events, rows).Keys == events.Keys + KeysOf(rows)
    ensures forall k <- events :: InsertRows(events, rows)[k] == events[k]
    ensures forall k <- InsertRows(events, rows) :: k !in events ==> InsertRows(events, rows)[k] in rows && InsertRows(events, rows)[k].key == k
    decreases |rows|
  {
    if rows != [] {
      var k := rows[0].key;
      var next := if k in events then events else events[k := rows[0]];
      InsertRowsKeys(next, rows[1..]);
      KeysOfCons(rows);
      assert next.Keys == events.Keys + {k};
    }
  }

  /** A batch already stored inserts nothing: redelivery and replay are no-ops on the event table. */
  lemma ReinsertIsNoop(events: map<EventKey, Row>, rows: seq<Row>)
    requires KeysOf(rows) <= events.Keys
    ensures InsertRows(events, rows) == events
  {
  }

  /** Minting adds only ids of inputs that landed and never replaces a stored attestation. */
  lemma {:induction false} MintKeeps(atts: map<AttestationId, AttestationInput>, inputs: seq<AttestationInput>, lands: seq<bool>)
    requires |lands| == |inputs|
    ensures forall id <- atts :: id in Mint(atts, inputs, lands) && Mint(atts, inputs, lands)[id] == atts[id]
    ensures forall id <- Mint(atts, inputs, lands) :: id !in atts ==> Mint(atts, inputs, lands)[id] in inputs && Mint(atts, inputs, lands)[id].id == id
    ensures forall i :: 0 <= i < |inputs| && lands[i] ==> inputs[i].id in Mint(atts, inputs, lands)
    decreases |inputs|
  {
    if inputs != [] {
      var a := inputs[0];
      var next := if lands[0] && a.id !in atts then atts[a.id := a] else atts;
      MintKeeps(next, inputs[1..], lands[1..]);
      forall i | 0 <= i < |inputs| && lands[i] ensures inputs[i].id in Mint(atts, inputs, lands) {
        if i > 0 {
          assert inputs[1..][i - 1] == inputs[i] && lands[1..][i - 1] == lands[i];
        }
      }
    }
  }

  /**
   What one call leaves in the attestation table: everything that was there, the id of
   every trace whose mint landed, and nothing else but attestations of this batch.
   */
  lemma CallMints(db: Db, p: Prepared, faults: Faults)
    ensures var after := Written(db, p, faults).0.attestations;
            && (forall id <- db.attestations :: id in after && after[id] == db.attestations[id])
            && (forall i :: 0 <= i < |p.outputs| && faults.mintLands(i) ==> Attestations(p)[i].id in after)
            && (forall id <- after :: id !in db.attestations ==> after[id] in Attestations(p) && after[id].id == id)
  {
    MintKeeps(db.attestations, Attestations(p), Landing(faults, |p.outputs|));
  }
}
