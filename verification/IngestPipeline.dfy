/** The pipeline as it runs: loops over events and components, a flat envelope index, two memos and three writes. */
module IngestPipeline {
  import opened Common
  import opened IngestModel
  import opened IngestProperties

  /** The storage backend; each insert is one transaction that commits or leaves no trace. */
  class Backend {
    var events: map<EventKey, Row>
    var llmCalls: seq<LlmRow>
    var attestations: map<AttestationId, AttestationInput>

    constructor ()
      ensures View() == Db(map[], [], map[])
    {
      events, llmCalls, attestations := map[], [], map[];
    }

    ghost function View(): Db
      reads this
    {
      Db(events, llmCalls, attestations)
    }

    /** An id already held is success without a write. */
    method AttestationInsertLocal(input: AttestationInput, lands: bool) returns (ok: bool)
      modifies this`attestations
      ensures ok == lands
      ensures attestations == if lands && input.id !in old(attestations) then old(attestations)[input.id := input] else old(attestations)
    {
      if lands && input.id !in attestations {
        attestations := attestations[input.id := input];
      }
      ok := lands;
    }

    method InsertTraceEventsBatch(rows: seq<Row>, commits: bool) returns (inserted: nat, conflicted: nat)
      modifies this`events
      ensures events == if commits then InsertRows(old(events), rows) else old(events)
      ensures commits ==> inserted + conflicted == |rows| && |events.Keys| == old(|events.Keys|) + inserted
    {
      var tx := events;
      inserted, conflicted := 0, 0;
      var i := 0;
      while i < |rows|
        invariant 0 <= i <= |rows|
        invariant InsertRows(tx, rows[i..]) == InsertRows(events, rows)
        invariant inserted + conflicted == i && |tx.Keys| == |events.Keys| + inserted
      {
        var k := rows[i].key;
        assert rows[i..][1..] == rows[i + 1..];
        if k in tx {
          conflicted := conflicted + 1;
        } else {
          assert tx[k := rows[i]].Keys == tx.Keys + {k};
          tx := tx[k := rows[i]];
          inserted := inserted + 1;
        }
        i := i + 1;
      }
      assert rows[i..] == [];
      if commits {
        events := tx;
      }
    }

    method InsertTraceLlmCallsBatch(rows: seq<LlmRow>, commits: bool)
      modifies this`llmCalls
      ensures llmCalls == if commits then old(llmCalls) + rows else old(llmCalls)
    {
      if commits {
        llmCalls := llmCalls + rows;
      }
    }
  }

  function Verdict<T, U>(r: Result<T, IngestError>, u: U): Result<U, IngestError> {
    match r case Ok(_) => Ok(u) case Err(e) => Err(e)
  }

  /** Step 2: the first trace that fails to verify stops the batch. */
  method VerifyTraces(wire: Wire, dir: Directory, events: seq<CompleteTrace>) returns (r: Result<nat, IngestError>)
    ensures r == Verdict(Traverse(events, VerifyStep(wire, dir)), |events|)
  {
    var i := 0;
    while i < |events|
      invariant 0 <= i <= |events|
      invariant forall k :: 0 <= k < i ==> VerifyStep(wire, dir)(events[k]).Ok?
    {
      var v := VerifyTrace(wire, dir, events[i]);
      if v.Err? {
        TraverseStops(events, VerifyStep(wire, dir), i, v.error);
        return Err(v.error);
      }
      i := i + 1;
    }
    return Ok(i);
  }

  /** Step 2b, asking for this node's role at most once per batch. */
  method RefuseNamedTraces(dir: Directory, events: seq<CompleteTrace>) returns (r: Result<(), IngestError>)
    ensures r == Verdict(Traverse(events, RefuseStep(dir)), ())
  {
    var canonical: Option<bool> := None;
    var i := 0;
    while i < |events|
      invariant 0 <= i <= |events|
      invariant canonical.Some? ==> CanonicalRole(dir) == Got(canonical.value)
      invariant forall k :: 0 <= k < i ==> RefuseStep(dir)(events[k]).Ok?
    {
      var t := events[i];
      var tomb := Entombed(dir, t);
      if tomb.Err? {
        TraverseStops(events, RefuseStep(dir), i, tomb.error);
        return Err(tomb.error);
      }
      if SignedRunKind(t) == Some(MOCK) {
        if canonical.None? {
          var role := CanonicalRole(dir);
          if role.Fault? {
            TraverseStops(events, RefuseStep(dir), i, Store);
            return Err(Store);
          }
          canonical := Some(role.value);
        }
        if canonical.value {
          TraverseStops(events, RefuseStep(dir), i, TraceRefused("trace_run_kind_mock", t.traceId));
          return Err(TraceRefused("trace_run_kind_mock", t.traceId));
        }
      }
      i := i + 1;
    }
    return Ok(());
  }

  /** Step 3 on one trace. */
  method HashTrace(wire: Wire, components: seq<Component>) returns (r: Result<seq<Digest>, IngestError>)
    ensures r == Traverse(components, DigestStep(wire))
  {
    var hashes: seq<Digest> := [];
    var j := 0;
    while j < |components|
      invariant 0 <= j == |hashes| <= |components|
      invariant Ran(components, DigestStep(wire), hashes)
    {
      var digest := PayloadDigest(wire, components[j].data);
      if digest.None? {
        RanStops(components, DigestStep(wire), hashes, Verify(Canonicalization));
        return Err(Verify(Canonicalization));
      }
      RanStep(components, DigestStep(wire), hashes, digest.value);
      hashes := hashes + [digest.value];
      j := j + 1;
    }
    RanAll(components, DigestStep(wire), hashes);
    return Ok(hashes);
  }

  /** Step 3: one digest per component, flat across the batch. */
  method ComputePreScrubHashes(wire: Wire, events: seq<CompleteTrace>) returns (r: Result<seq<Digest>, IngestError>)
    ensures r == Traverse(Components(events), DigestStep(wire))
  {
    ghost var lists := ComponentLists(events);
    var hashes: seq<Digest> := [];
    var i := 0;
    assert lists[0..] == lists;
    PrependNothing(Traverse(Components(events), DigestStep(wire)));
    while i < |events|
      invariant 0 <= i <= |events|
      invariant Traverse(Components(events), DigestStep(wire)) == Prepend(hashes, Traverse(Concat(lists[i..]), DigestStep(wire)))
    {
      assert lists[i..][1..] == lists[i + 1..];
      TraverseSplit(events[i].components, Concat(lists[i + 1..]), DigestStep(wire));
      var h := HashTrace(wire, events[i].components);
      if h.Err? {
        return Err(h.error);
      }
      PrependTwice(hashes, h.value, Traverse(Concat(lists[i + 1..]), DigestStep(wire)));
      hashes := hashes + h.value;
      i := i + 1;
    }
    assert lists[i..] == [];
    assert hashes + [] == hashes;
    return Ok(hashes);
  }

  function Prepend<T, E>(done: seq<T>, rest: Result<seq<T>, E>): Result<seq<T>, E> {
    match rest case Ok(xs) => Ok(done + xs) case Err(e) => Err(e)
  }

  lemma PrependNothing<T, E>(rest: Result<seq<T>, E>)
    ensures Prepend([], rest) == rest
  {
    if rest.Ok? {
      assert [] + rest.value == rest.value;
    }
  }

  lemma PrependTwice<T, E>(a: seq<T>, b: seq<T>, rest: Result<seq<T>, E>)
    ensures Prepend(a, Prepend(b, rest)) == Prepend(a + b, rest)
  {
    if rest.Ok? {
      assert a + (b + rest.value) == (a + b) + rest.value;
    }
  }

  /** Running over a concatenation is running over its parts in turn. */
  lemma {:induction false} TraverseSplit<T, U, E>(a: seq<T>, b: seq<T>, f: T -> Result<U, E>)
    ensures Traverse(a + b, f) == match Traverse(a, f) case Err(e) => Err(e) case Ok(us) => Prepend(us, Traverse(b, f))
  {
    if a == [] {
      assert a + b == b;
      PrependNothing(Traverse(b, f));
    } else {
      TraverseSplit(a[1..], b, f);
      assert (a + b)[1..] == a[1..] + b;
      if f(a[0]).Ok? && Traverse(a[1..], f).Ok? {
        PrependTwice([f(a[0]).value], Traverse(a[1..], f).value, Traverse(b, f));
      }
    }
  }

  /** `hashes` are the batch's digests, component `j` of trace `i` at its flat index. */
  ghost predicate Digested(wire: Wire, events: seq<CompleteTrace>, hashes: seq<Digest>) {
    && |hashes| == Offset(ComponentLists(events), |events|)
    && forall i :: 0 <= i < |events| ==> DigestedAt(wire, events, hashes, i)
  }

  ghost predicate DigestedAt(wire: Wire, events: seq<CompleteTrace>, hashes: seq<Digest>, i: nat) {
    i < |events| && TraceDigested(wire, events[i].components, hashes, Offset(ComponentLists(events), i))
  }

  ghost predicate TraceDigested(wire: Wire, components: seq<Component>, hashes: seq<Digest>, start: nat) {
    && start + |components| <= |hashes|
    && forall j :: 0 <= j < |components| ==> PayloadDigest(wire, components[j].data) == Some(hashes[start + j])
  }

  lemma DigestsOf(wire: Wire, events: seq<CompleteTrace>, hashes: seq<Digest>)
    requires Traverse(Components(events), DigestStep(wire)) == Ok(hashes)
    ensures Digested(wire, events, hashes)
  {
    var lists := ComponentLists(events);
    ConcatLength(lists);
    forall i | 0 <= i < |events| ensures DigestedAt(wire, events, hashes, i) {
      OffsetGrows(lists, i + 1, |events|);
      forall j | 0 <= j < |events[i].components|
        ensures PayloadDigest(wire, events[i].components[j].data) == Some(hashes[Offset(lists, i) + j])
      {
        ConcatAt(lists, i, j);
        assert DigestStep(wire)(Components(events)[Offset(lists, i) + j]) == Ok(hashes[Offset(lists, i) + j]);
      }
    }
  }

  /** Sign the components of one trace, whose hashes begin at `start` of the flat list. */
  method SignTrace(wire: Wire, world: World, components: seq<Component>, hashes: seq<Digest>, start: nat, outcome: ScrubOutcome)
    returns (r: Result<seq<ScrubEnvelope>, IngestError>, idx: nat)
    requires TraceDigested(wire, components, hashes, start) && SignsAll(world, start)
    ensures r.Ok? <==> SignsAll(world, start + |components|)
    ensures r.Err? ==> r.error == Sign
    ensures r.Ok? ==> idx == start + |components| && |r.value| == |components|
    ensures r.Ok? ==> forall j :: 0 <= j < |components| ==> EnvelopeFor(wire, world, outcome, components[j].data, r.value[j])
  {
    var now := Truncate(world.clock);
    var envelopes: seq<ScrubEnvelope> := [];
    idx := start;
    var j := 0;
    while j < |components|
      invariant 0 <= j == |envelopes| <= |components| && idx == start + j
      invariant SignsAll(world, idx)
      invariant forall k :: 0 <= k < j ==> EnvelopeFor(wire, world, outcome, components[k].data, envelopes[k])
    {
      var post := PayloadDigest(wire, components[j].data).value;
      var preimage := PreimageV2(post, hashes[idx], outcome.nerRan, outcome.appliedLevel, outcome.modelDigest, world.signerKeyId, now);
      if world.signerFailsAt.Some? && world.signerFailsAt.value == idx {
        return Err(Sign), idx;
      }
      envelopes := envelopes + [ScrubEnvelope(hashes[idx], SignedBy(world.signerKeyId, preimage), world.signerKeyId, now,
                                              outcome.nerRan, outcome.appliedLevel, outcome.modelDigest)];
      idx := idx + 1;
      j := j + 1;
    }
    r := Ok(envelopes);
  }

  /** Step 3.5: one signed envelope per component, in the same flat order. */
  method SignScrubEnvelopes(wire: Wire, world: World, events: seq<CompleteTrace>, hashes: seq<Digest>, outcome: ScrubOutcome)
    returns (r: Result<seq<ScrubEnvelope>, IngestError>)
    requires Digested(wire, events, hashes)
    ensures r.Ok? <==> SignsAll(world, |hashes|)
    ensures r.Err? ==> r.error == Sign
    ensures r.Ok? ==> EnvelopesAligned(wire, world, outcome, events, r.value)
  {
    ghost var lists := ComponentLists(events);
    var envelopes: seq<ScrubEnvelope> := [];
    var idx := 0;
    var i := 0;
    while i < |events|
      invariant 0 <= i <= |events|
      invariant idx == |envelopes| == Offset(lists, i)
      invariant SignsAll(world, idx)
      invariant PrefixEnveloped(wire, world, outcome, events, envelopes, i)
    {
      assert DigestedAt(wire, events, hashes, i);
      assert Offset(lists, i + 1) == idx + |events[i].components|;
      var signed, next := SignTrace(wire, world, events[i].components, hashes, idx, outcome);
      if signed.Err? {
        OffsetGrows(lists, i + 1, |events|);
        SignsFewer(world, Offset(lists, i + 1), |hashes|);
        return Err(Sign);
      }
      NewEnvelopesFollow(wire, world, outcome, events[i].components, envelopes, signed.value);
      EnvelopedGrows(wire, world, outcome, events, envelopes, signed.value, i);
      envelopes, idx := envelopes + signed.value, next;
      i := i + 1;
    }
    return Ok(envelopes);
  }

  lemma SignsFewer(world: World, n: nat, m: nat)
    requires n <= m && !SignsAll(world, n)
    ensures !SignsAll(world, m)
  {
  }

  lemma EnvelopedGrows(wire: Wire, world: World, outcome: ScrubOutcome, events: seq<CompleteTrace>,
                       done: seq<ScrubEnvelope>, more: seq<ScrubEnvelope>, i: nat)
    requires PrefixEnveloped(wire, world, outcome, events, done, i)
    requires EnvelopedAt(wire, world, outcome, events, done + more, i)
    ensures PrefixEnveloped(wire, world, outcome, events, done + more, i + 1)
  {
    forall k | 0 <= k < i + 1 ensures EnvelopedAt(wire, world, outcome, events, done + more, k) {
      if k < i { EnvelopedStays(wire, world, outcome, events, done, more, k); }
    }
  }

  lemma EnvelopedStays(wire: Wire, world: World, outcome: ScrubOutcome, events: seq<CompleteTrace>,
                       done: seq<ScrubEnvelope>, more: seq<ScrubEnvelope>, k: nat)
    requires EnvelopedAt(wire, world, outcome, events, done, k)
    ensures EnvelopedAt(wire, world, outcome, events, done + more, k)
  {
  }

  lemma NewEnvelopesFollow(wire: Wire, world: World, outcome: ScrubOutcome, components: seq<Component>,
                           done: seq<ScrubEnvelope>, more: seq<ScrubEnvelope>)
    requires |more| == |components|
    requires forall j :: 0 <= j < |more| ==> EnvelopeFor(wire, world, outcome, components[j].data, more[j])
    ensures TraceEnveloped(wire, world, outcome, components, done + more, |done|)
  {
  }

  /** Decompose: two lists filled in one pass. */
  method DecomposeTrace(wire: Wire, t: CompleteTrace) returns (r: Result<Decomposed, SchemaError>)
    ensures r == Decompose(wire, t)
  {
    var step := DecomposeStep(wire, t);
    var pairs: seq<(Row, Option<LlmRow>)> := [];
    var events: seq<Row> := [];
    var llmCalls: seq<LlmRow> := [];
    var i := 0;
    while i < |t.components|
      invariant 0 <= i == |pairs| <= |t.components|
      invariant Ran(t.components, step, pairs)
      invariant events == Firsts(pairs) && llmCalls == Present(pairs)
    {
      var d := DecomposeComponent(wire, t, t.components[i]);
      if d.Err? {
        RanStops(t.components, step, pairs, d.error);
        return Err(d.error);
      }
      RanStep(t.components, step, pairs, d.value);
      PresentAppend(pairs, d.value);
      events := events + [d.value.0];
      if d.value.1.Some? {
        llmCalls := llmCalls + [d.value.1.value];
      }
      pairs := pairs + [d.value];
      assert events == Firsts(pairs);
      i := i + 1;
    }
    RanAll(t.components, step, pairs);
    return Ok(Decomposed(events, llmCalls));
  }

  lemma {:induction false} PresentAppend<A, B>(xs: seq<(A, Option<B>)>, x: (A, Option<B>))
    ensures Present(xs + [x]) == Present(xs) + if x.1.Some? then [x.1.value] else []
  {
    if xs == [] {
      assert xs + [x] == [x];
    } else {
      PresentAppend(xs[1..], x);
      assert (xs + [x])[1..] == xs[1..] + [x];
    }
  }

  type Cache = Option<(KeyId, Admission)>

  /** A cached admission is what resolving its signer afresh would give. */
  ghost predicate Fresh(dir: Directory, cache: Cache) {
    cache.Some? ==> ResolveAdmission(dir, cache.value.0) == Got(cache.value.1)
  }

  /** Resolve the writer once per signer; the memo never changes a verdict. */
  method WriterAdmission(dir: Directory, cache: Cache, signer: KeyId) returns (cache': Cache, r: Read<Admission>)
    requires Fresh(dir, cache)
    ensures Fresh(dir, cache')
    ensures r == ResolveAdmission(dir, signer)
  {
    if cache.Some? && cache.value.0 == signer {
      return cache, Got(cache.value.1);
    }
    r := ResolveAdmission(dir, signer);
    cache' := if r.Got? then Some((signer, r.value)) else cache;
  }

  /** One stamped row through self-target resolution and the roster gate. */
  method GateStampedRow(dir: Directory, cache: Cache, signer: KeyId, stamped: Row) returns (cache': Cache, r: Result<Row, IngestError>)
    requires Fresh(dir, cache)
    ensures Fresh(dir, cache')
    ensures r == GateRow(dir, signer, stamped)
  {
    var row := stamped;
    cache' := cache;
    if row.cohortScope == SELF_SCOPE {
      var target := SelfTarget(dir, signer);
      if target.Fault? {
        return cache, Err(Store);
      }
      row := row.(cohortTarget := Some(target.value));
    }
    var plane := TargetPlaneOf(row.cohortScope);
    if plane.Some? {
      var admission;
      cache', admission := WriterAdmission(dir, cache, signer);
      if admission.Fault? {
        return cache', Err(Store);
      }
      if !IsMember(admission.value, plane.value, row.cohortTarget) {
        return cache', Err(Refusal(dir, plane.value, row.cohortTarget));
      }
    }
    r := Ok(row);
  }

  /** The rows of one trace, each taking the next envelope off the flat list. */
  method StampTrace(wire: Wire, world: World, mode: VerifyMode, outcome: ScrubOutcome, ghost components: seq<Component>,
                    base: seq<Row>, envelopes: seq<ScrubEnvelope>, start: nat, cache: Cache)
    returns (cache': Cache, r: Result<seq<Row>, IngestError>, envIdx: nat)
    requires Fresh(world.dir, cache)
    requires TraceEnveloped(wire, world, outcome, components, envelopes, start)
    requires |base| == |components| && forall j :: 0 <= j < |base| ==> base[j].payload == components[j].data
    ensures Fresh(world.dir, cache')
    ensures r == Traverse(base, RowStep(wire, world, mode, outcome))
    ensures r.Ok? ==> envIdx == start + |base|
  {
    var step := RowStep(wire, world, mode, outcome);
    var rows: seq<Row> := [];
    cache', envIdx := cache, start;
    var j := 0;
    while j < |base|
      invariant 0 <= j == |rows| <= |base| && envIdx == start + j
      invariant Fresh(world.dir, cache')
      invariant Ran(base, step, rows)
    {
      var e := envelopes[envIdx];
      var gated;
      cache', gated := GateStampedRow(world.dir, cache', e.keyId, Stamp(base[j], e, mode));
      assert step(base[j]) == gated;
      if gated.Err? {
        RanStops(base, step, rows, gated.error);
        return cache', Err(gated.error), envIdx;
      }
      RanStep(base, step, rows, gated.value);
      rows := rows + [gated.value];
      envIdx := envIdx + 1;
      j := j + 1;
    }
    RanAll(base, step, rows);
    r := Ok(rows);
  }

  /** `e` is the envelope of a component carrying `payload`. */
  ghost predicate EnvelopeFor(wire: Wire, world: World, outcome: ScrubOutcome, payload: map<string, Json>, e: ScrubEnvelope) {
    PayloadDigest(wire, payload).Some? && e == EnvelopeOf(world, outcome, PayloadDigest(wire, payload).value)
  }

  /** The envelopes of these components begin at `start` of the flat list. */
  ghost predicate TraceEnveloped(wire: Wire, world: World, outcome: ScrubOutcome, components: seq<Component>, envelopes: seq<ScrubEnvelope>, start: nat) {
    && start + |components| <= |envelopes|
    && forall j :: 0 <= j < |components| ==> EnvelopeFor(wire, world, outcome, components[j].data, envelopes[start + j])
  }

  /** Trace `i` finds its envelopes at its own offset. */
  ghost predicate EnvelopedAt(wire: Wire, world: World, outcome: ScrubOutcome, events: seq<CompleteTrace>, envelopes: seq<ScrubEnvelope>, i: nat) {
    i < |events| && TraceEnveloped(wire, world, outcome, events[i].components, envelopes, Offset(ComponentLists(events), i))
  }

  ghost predicate PrefixEnveloped(wire: Wire, world: World, outcome: ScrubOutcome, events: seq<CompleteTrace>, envelopes: seq<ScrubEnvelope>, n: nat) {
    forall i :: 0 <= i < n ==> EnvelopedAt(wire, world, outcome, events, envelopes, i)
  }

  /** The flat list holds one envelope per component of the batch, at its flat index. */
  ghost predicate EnvelopesAligned(wire: Wire, world: World, outcome: ScrubOutcome, events: seq<CompleteTrace>, envelopes: seq<ScrubEnvelope>) {
    && |envelopes| == Offset(ComponentLists(events), |events|)
    && PrefixEnveloped(wire, world, outcome, events, envelopes, |events|)
  }

  /** Step 6 on one trace: its rows take the next envelopes, its attestation comes from the copy at its index. */
  method AssembleTrace(wire: Wire, world: World, mode: VerifyMode, outcome: ScrubOutcome,
                       t: CompleteTrace, copy: Option<CompleteTrace>, envelopes: seq<ScrubEnvelope>, start: nat, cache: Cache)
    returns (cache': Cache, r: Result<TraceOutput, IngestError>, envIdx: nat)
    requires TraceEnveloped(wire, world, outcome, t.components, envelopes, start) && Fresh(world.dir, cache)
    ensures Fresh(world.dir, cache')
    ensures r == PrepareTrace(wire, world, mode, outcome, t, copy)
    ensures r.Ok? ==> envIdx == start + |t.components|
  {
    var d := DecomposeTrace(wire, t);
    if d.Err? {
      return cache, Err(Schema(d.error)), start;
    }
    DecomposeAligned(wire, t);
    var rows;
    cache', rows, envIdx := StampTrace(wire, world, mode, outcome, t.components, d.value.events, envelopes, start, cache);
    if rows.Err? {
      return cache', Err(rows.error), envIdx;
    }
    if copy.None? {
      return cache', Err(ShapeDrift), envIdx;
    }
    var input := BuildAttestation(wire, copy.value);
    if input.Err? {
      return cache', Err(input.error), envIdx;
    }
    r := Ok(TraceOutput(rows.value, d.value.llmCalls, input.value));
  }

  /** `step` on item `i` is the preparation of trace `i` beside its copy. */
  ghost predicate StepsTrace<T>(wire: Wire, world: World, mode: VerifyMode, s: Scrubbed, events: seq<CompleteTrace>,
                                items: seq<T>, step: T -> Result<TraceOutput, IngestError>, i: nat)
  {
    i < |items| && i < |events| && step(items[i]) == PrepareTrace(wire, world, mode, s.outcome, events[i], CopyAt(s.copy.events, i))
  }

  lemma StepsEveryTrace(wire: Wire, world: World, mode: VerifyMode, s: Scrubbed, events: seq<CompleteTrace>)
    ensures forall i :: 0 <= i < |events| ==>
              StepsTrace(wire, world, mode, s, events, Beside(events, s.copy.events), TraceStep(wire, world, mode, s.outcome), i)
  {
  }

  /** Trace `i` beside its copy, its envelopes starting where the traces before it end. */
  method AssembleNext<T>(wire: Wire, world: World, mode: VerifyMode, events: seq<CompleteTrace>, s: Scrubbed, envelopes: seq<ScrubEnvelope>,
                         i: nat, start: nat, cache: Cache, ghost items: seq<T>, ghost step: T -> Result<TraceOutput, IngestError>)
    returns (cache': Cache, r: Result<TraceOutput, IngestError>, envIdx: nat)
    requires EnvelopesAligned(wire, world, s.outcome, events, envelopes) && Fresh(world.dir, cache)
    requires StepsTrace(wire, world, mode, s, events, items, step, i) && start == Offset(ComponentLists(events), i)
    ensures Fresh(world.dir, cache') && r == step(items[i])
    ensures r.Ok? ==> envIdx == Offset(ComponentLists(events), i + 1)
  {
    assert EnvelopedAt(wire, world, s.outcome, events, envelopes, i);
    cache', r, envIdx := AssembleTrace(wire, world, mode, s.outcome, events[i], CopyAt(s.copy.events, i), envelopes, start, cache);
  }

  /** Step 6: the flat index runs from 0 to exactly `envelopes.len()`. */
  method AssembleTraces<T>(wire: Wire, world: World, mode: VerifyMode, events: seq<CompleteTrace>, s: Scrubbed, envelopes: seq<ScrubEnvelope>,
                           ghost items: seq<T>, ghost step: T -> Result<TraceOutput, IngestError>)
    returns (r: Result<seq<TraceOutput>, IngestError>, envIdx: nat)
    requires EnvelopesAligned(wire, world, s.outcome, events, envelopes)
    requires |items| == |events| && forall i :: 0 <= i < |events| ==> StepsTrace(wire, world, mode, s, events, items, step, i)
    ensures r == Traverse(items, step)
    ensures r.Ok? ==> envIdx == |envelopes|
  {
    ghost var lists := ComponentLists(events);
    var outputs: seq<TraceOutput> := [];
    var cache: Cache := None;
    envIdx := 0;
    var i := 0;
    while i < |events|
      invariant 0 <= i == |outputs| <= |events|
      invariant envIdx == Offset(lists, i)
      invariant Fresh(world.dir, cache)
      invariant Ran(items, step, outputs)
    {
      assert StepsTrace(wire, world, mode, s, events, items, step, i);
      var out;
      cache, out, envIdx := AssembleNext(wire, world, mode, events, s, envelopes, i, envIdx, cache, items, step);
      if out.Err? {
        RanStops(items, step, outputs, out.error);
        return Err(out.error), envIdx;
      }
      RanStep(items, step, outputs, out.value);
      outputs := outputs + [out.value];
      i := i + 1;
    }
    RanAll(items, step, outputs);
    r := Ok(outputs);
  }

  /** Steps 1 to 6. Nothing here can reach the backend's tables. */
  method PrepareMethod(wire: Wire, world: World, mode: VerifyMode, bytes: Bytes) returns (r: Result<Prepared, IngestError>)
    ensures r == Prepare(wire, world, mode, bytes)
  {
    var parsed := wire.parse(bytes);
    if parsed.Err? {
      return Err(Schema(parsed.error));
    }
    var batch := parsed.value;
    var verified := 0;
    if mode == Full {
      var v := VerifyTraces(wire, world.dir, batch.events);
      if v.Err? {
        return Err(v.error);
      }
      verified := v.value;
    }
    var refused := RefuseNamedTraces(world.dir, batch.events);
    if refused.Err? {
      return Err(refused.error);
    }
    var hashes := ComputePreScrubHashes(wire, batch.events);
    if hashes.Err? {
      return Err(hashes.error);
    }
    DigestsOf(wire, batch.events, hashes.value);
    var scrubbed := world.scrub(batch);
    if scrubbed.None? {
      return Err(Scrub);
    }
    var s := scrubbed.value;
    if s.outcome.appliedLevel == FULL_TRACES && !s.outcome.nerRan {
      return Err(ScrubTreatmentMismatch(s.outcome));
    }
    var envelopes := SignScrubEnvelopes(wire, world, batch.events, hashes.value, s.outcome);
    if envelopes.Err? {
      return Err(Sign);
    }
    StepsEveryTrace(wire, world, mode, s, batch.events);
    var outputs, envIdx := AssembleTraces(wire, world, mode, batch.events, s, envelopes.value,
                                          Beside(batch.events, s.copy.events), TraceStep(wire, world, mode, s.outcome));
    if outputs.Err? {
      return Err(outputs.error);
    }
    assert envIdx == |envelopes.value|;
    return Ok(Prepared(outputs.value, s.outcome.fieldsModified, verified));
  }

  /** Step 4.9: mint each trace's attestation; a refused mint is skipped, not an error. */
  method MintAttestations(backend: Backend, inputs: seq<AttestationInput>, faults: Faults) returns (minted: nat, skipped: nat)
    modifies backend`attestations
    ensures backend.attestations == Mint(old(backend.attestations), inputs, Landing(faults, |inputs|))
    ensures minted == |set i | 0 <= i < |inputs| && faults.mintLands(i)| && skipped == |set i | 0 <= i < |inputs| && !faults.mintLands(i)|
  {
    var lands := Landing(faults, |inputs|);
    minted, skipped := 0, 0;
    var i := 0;
    while i < |inputs|
      invariant 0 <= i <= |inputs|
      invariant Mint(backend.attestations, inputs[i..], lands[i..]) == Mint(old(backend.attestations), inputs, lands)
      invariant minted == |Landed(faults, i, true)| && skipped == |Landed(faults, i, false)|
    {
      assert inputs[i..][1..] == inputs[i + 1..] && lands[i..][1..] == lands[i + 1..];
      LandedGrows(faults, i, true);
      LandedGrows(faults, i, false);
      var ok := backend.AttestationInsertLocal(inputs[i], faults.mintLands(i));
      if ok {
        minted := minted + 1;
      } else {
        skipped := skipped + 1;
      }
      i := i + 1;
    }
    assert inputs[i..] == [] && lands[i..] == [];
    assert Landed(faults, |inputs|, false) == set i | 0 <= i < |inputs| && !faults.mintLands(i);
    assert Landed(faults, |inputs|, true) == set i | 0 <= i < |inputs| && faults.mintLands(i);
  }

  /** The first n mints that go this way. */
  ghost function Landed(faults: Faults, n: nat, how: bool): set<int> {
    set i | 0 <= i < n && faults.mintLands(i) == how
  }

  lemma LandedGrows(faults: Faults, n: nat, how: bool)
    ensures |Landed(faults, n + 1, how)| == |Landed(faults, n, how)| + if faults.mintLands(n) == how then 1 else 0
  {
    LandedNext(faults, n, how);
  }

  lemma LandedNext(faults: Faults, n: nat, how: bool)
    ensures Landed(faults, n + 1, how) == Landed(faults, n, how) + if faults.mintLands(n) == how then {n} else {}
    ensures n !in Landed(faults, n, how)
  {
    forall i: int ensures i in Landed(faults, n + 1, how) <==> i in Landed(faults, n, how) || (i == n && faults.mintLands(n) == how) {
    }
  }

  /**
   The whole call. A refusal at any point, even at the last row of the last trace,
   leaves every table as it was; only a Store error can follow a write, and then the
   tables hold exactly the completed writes.
   */
  method ReceiveAndPersistWith(wire: Wire, backend: Backend, world: World, mode: VerifyMode, bytes: Bytes, faults: Faults)
    returns (r: Result<Summary, IngestError>)
    modifies backend
    ensures r.Err? && r.error != Store ==> backend.View() == old(backend.View())
    ensures Prepare(wire, world, mode, bytes).Err? ==>
              r == Err(Prepare(wire, world, mode, bytes).error) && backend.View() == old(backend.View())
    ensures Prepare(wire, world, mode, bytes).Ok? ==>
              var p := Prepare(wire, world, mode, bytes).value;
              && (backend.View(), r.Ok?) == Written(old(backend.View()), p, faults)
              && (r.Err? ==> r.error == Store)
              && (r.Ok? ==> Accounts(r.value, p, faults, old(backend.View()), backend.View()))
  {
    var prepared := PrepareMethod(wire, world, mode, bytes);
    if prepared.Err? {
      return Err(prepared.error);
    }
    var p := prepared.value;
    var minted, skipped := MintAttestations(backend, Attestations(p), faults);
    var rows := Rows(p);
    var inserted, conflicted := backend.InsertTraceEventsBatch(rows, faults.eventsLand);
    if !faults.eventsLand {
      return Err(Store);
    }
    var llm := LlmRows(p);
    backend.InsertTraceLlmCallsBatch(llm, faults.llmLand);
    if !faults.llmLand {
      return Err(Store);
    }
    return Ok(Summary(|p.outputs|, inserted, conflicted, minted, skipped, |llm|, p.scrubbedFields, p.signaturesVerified));
  }

  /** The reported numbers account for every row, mint and trace of the batch. */
  ghost predicate Accounts(s: Summary, p: Prepared, faults: Faults, before: Db, after: Db) {
    && s.envelopesProcessed == |p.outputs|
    && s.eventsInserted + s.eventsConflicted == |Rows(p)|
    && |after.events.Keys| == |before.events.Keys| + s.eventsInserted
    && s.attestationsMinted == |set i | 0 <= i < |p.outputs| && faults.mintLands(i)|
    && s.attestationsSkipped == |set i | 0 <= i < |p.outputs| && !faults.mintLands(i)|
    && |after.llmCalls| == |before.llmCalls| + s.llmCallsInserted
    && s.signaturesVerified == p.signaturesVerified && s.scrubbedFields == p.scrubbedFields
  }
}
