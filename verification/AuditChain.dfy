/**
 The audit log (src/audit): per-tenant hash chains, the append that checks them, the
 walk that verifies them, and the leaf bytes the transparency log hashes. Hashing and
 signing are terms: injective, and no digest is the all-zero genesis value.
 */
module AuditChain {
  import opened Common

  /** A hash column: the genesis zeros, a digest, some other 32 bytes, or bytes of another length. */
  datatype Hash = Genesis | Digest(doc: Document) | Foreign(id: nat) | Sized(length: nat)

  /** An entry without the two fields it is hashed without. */
  datatype Claims = Claims(
    entryId: string, sequence: int, tenant: string, actor: string, action: string, subjectKind: string, subjectId: string,
    payload: Json, prevHash: Hash, recordedAt: int)

  /** Canonical bytes of an entry; the canonical form never includes the signature. */
  datatype Document = Document(claims: Claims, entryHash: Hash)

  datatype Signature = Missing | SignedBy(actor: string, doc: Document) | Unverifiable(id: nat)

  datatype Entry = Entry(claims: Claims, entryHash: Hash, signature: Signature)

  datatype AuditError = InvalidArgument | ChainIntegrity | SignatureError | Backend | HookFailed

  predicate Is32Bytes(h: Hash) {
    !h.Sized? || h.length == 32
  }

  function CanonicalBytes(e: Entry): Document {
    Document(e.claims, e.entryHash)
  }

  /** The hash is over the entry with its own hash and its signature cleared. */
  function ComputeEntryHash(e: Entry): Hash {
    Digest(CanonicalBytes(Entry(e.claims, Sized(0), Missing)))
  }

  /** The signature is over the resolved hash too. */
  function VerifySignature(e: Entry): Result<(), AuditError> {
    if e.signature.Missing? then Err(SignatureError)
    else if e.claims.actor == "" then Err(InvalidArgument)
    else if e.signature == SignedBy(e.claims.actor, CanonicalBytes(e)) then Ok(())
    else Err(SignatureError)
  }

  /** Hash and signature are the entry's own. */
  ghost predicate Genuine(e: Entry) {
    e.entryHash == ComputeEntryHash(e) && VerifySignature(e).Ok?
  }

  // ---------------------------------------------------------------- what a row keeps

  /** Where the years 0 and 10000 begin, in nanoseconds: a timestamp text gives a year four digits (section 5.6 of RFC 3339). */
  const YEAR_0: int := -62_167_219_200_000_000_000
  const YEAR_10000: int := 253_402_300_800_000_000_000

  /** 719528 days lie between the start of year 0 and the epoch, and ten thousand years are 25 cycles of 146097 days. */
  lemma FourDigitYears()
    ensures YEAR_0 == -719_528 * 86_400 * 1_000_000_000
    ensures YEAR_10000 == YEAR_0 + 25 * 146_097 * 86_400 * 1_000_000_000
  {
  }

  /** The row written for an entry: its time cut to microseconds, its hash and signature as given. */
  function Stored(e: Entry): Entry {
    e.(claims := e.claims.(recordedAt := e.claims.recordedAt - e.claims.recordedAt % 1000))
  }

  predicate Readable(e: Entry) {
    YEAR_0 <= e.claims.recordedAt < YEAR_10000
  }

  /** The row can be read, and hash and signature are its own. */
  ghost predicate Intact(e: Entry) {
    Readable(e) && Genuine(e)
  }

  /** The entry was given at whole microseconds of a four-digit year. */
  predicate Plain(e: Entry) {
    e.claims.recordedAt % 1000 == 0 && Readable(e)
  }

  /** A genuine entry is still genuine as a row exactly when it was given at whole microseconds. */
  lemma StoredGenuineIff(e: Entry)
    requires Genuine(e)
    ensures Genuine(Stored(e)) <==> e.claims.recordedAt % 1000 == 0
    ensures Readable(Stored(e)) <==> Readable(e)
    ensures Intact(Stored(e)) <==> Plain(e)
  {
    if e.claims.recordedAt % 1000 == 0 {
      assert Stored(e) == e;
    } else {
      assert Stored(e).claims.recordedAt != e.claims.recordedAt;
    }
  }

  // ---------------------------------------------------------------- the transparency leaf

  datatype Leaf = Leaf(entry: Entry, chainEventId: int)

  function LeafBytes(l: Leaf): Document {
    CanonicalBytes(l.entry.(entryHash := Sized(0), signature := Missing))
  }

  /** A leaf hashes what the entry says, and nothing of where or how it is stored. */
  lemma LeafIsTheClaims(a: Leaf, b: Leaf)
    ensures LeafBytes(a) == LeafBytes(b) <==> a.entry.claims == b.entry.claims
    ensures Digest(LeafBytes(a)) == ComputeEntryHash(a.entry)
    ensures Genuine(a.entry) && Genuine(b.entry) ==> (LeafBytes(a) == LeafBytes(b) <==> a.entry.entryHash == b.entry.entryHash)
  {
  }

  // ---------------------------------------------------------------- the log

  type Place = (string, int)
  type Rows = map<Place, Entry>

  /** The tenant's greatest sequence number, if it has any entry. */
  ghost predicate IsTail(rows: Rows, tenant: string, tail: Option<int>) {
    match tail
    case None => forall p <- rows :: p.0 != tenant
    case Some(k) => (tenant, k) in rows && forall p <- rows :: p.0 == tenant ==> p.1 <= k
  }

  /** What an append checks before it looks at the log. */
  function CheckEntry(e: Entry): Result<(), AuditError> {
    if e.claims.sequence < 1 || e.claims.tenant == "" then Err(InvalidArgument)
    else if !Is32Bytes(e.claims.prevHash) || !Is32Bytes(e.entryHash) then Err(InvalidArgument)
    else if ComputeEntryHash(e) != e.entryHash then Err(ChainIntegrity)
    else VerifySignature(e)
  }

  /** The entry continues its tenant's chain. A first entry may carry any `prev_hash`: a bridge from another log. */
  ghost predicate Continues(rows: Rows, e: Entry) {
    exists tail :: IsTail(rows, e.claims.tenant, tail) &&
                   match tail
                   case None => e.claims.sequence == 1
                   case Some(k) => e.claims.sequence == k + 1 && e.claims.prevHash == rows[(e.claims.tenant, k)].entryHash
  }

  ghost predicate Admits(rows: Rows, e: Entry) {
    CheckEntry(e).Ok? && Continues(rows, e)
  }

  /** The entry is well formed, and its hash and signature are over its own content. */
  ghost predicate Proper(e: Entry) {
    && e.claims.sequence >= 1 && e.claims.tenant != "" && e.claims.actor != ""
    && (e.claims.prevHash.Sized? ==> e.claims.prevHash.length == 32)
    && e.entryHash == Digest(Document(e.claims, Sized(0)))
    && e.signature == SignedBy(e.claims.actor, Document(e.claims, e.entryHash))
  }

  /** What the append admits: a proper entry that is its tenant's first, or follows the greatest by number and by hash. */
  lemma AdmitsIff(rows: Rows, e: Entry)
    ensures Admits(rows, e) <==>
              && Proper(e)
              && if forall p <- rows :: p.0 != e.claims.tenant then e.claims.sequence == 1
                 else var last := (e.claims.tenant, e.claims.sequence - 1);
                      && last in rows && rows[last].entryHash == e.claims.prevHash
                      && forall p <- rows :: p.0 == e.claims.tenant ==> p.1 < e.claims.sequence
  {
    var last := (e.claims.tenant, e.claims.sequence - 1);
    if forall p <- rows :: p.0 != e.claims.tenant {
      assert IsTail(rows, e.claims.tenant, None);
    } else if last in rows && forall p <- rows :: p.0 == e.claims.tenant ==> p.1 < e.claims.sequence {
      assert IsTail(rows, e.claims.tenant, Some(e.claims.sequence - 1));
    }
  }

  function PlaceOf(e: Entry): Place {
    (e.claims.tenant, e.claims.sequence)
  }

  /** What was given: every entry at its own place, genuine, and linked to the entry before it. */
  ghost predicate Linked(given: Rows) {
    forall p {:trigger EntryLinked(given, p)} :: p in given ==> EntryLinked(given, p)
  }

  ghost predicate EntryLinked(given: Rows, p: Place)
    requires p in given
  {
    && p == PlaceOf(given[p]) && p.1 >= 1 && Genuine(given[p])
    && (p.1 > 1 ==> (p.0, p.1 - 1) in given && given[p].claims.prevHash == given[(p.0, p.1 - 1)].entryHash)
  }

  /** An admitted entry keeps every chain linked, its own and the others'. */
  lemma AppendKeepsLinked(given: Rows, e: Entry)
    requires Linked(given) && Admits(given, e)
    ensures PlaceOf(e) !in given && Linked(given[PlaceOf(e) := e])
  {
    var more := given[PlaceOf(e) := e];
    forall p <- more ensures EntryLinked(more, p) {
      if p in given {
        assert EntryLinked(given, p);
      }
    }
  }

  datatype Attempt = Attempt(entry: Entry, commits: bool, hookRuns: bool)

  ghost function Recorded(rows: Rows, a: Attempt): Rows {
    if Admits(rows, a.entry) && a.commits then rows[PlaceOf(a.entry) := Stored(a.entry)] else rows
  }

  ghost function RecordedAll(rows: Rows, attempts: seq<Attempt>): Rows
    decreases |attempts|
  {
    if attempts == [] then rows else RecordedAll(Recorded(rows, attempts[0]), attempts[1..])
  }

  /** The rows that hold the given entries. */
  function StoredRows(given: Rows): Rows {
    map p <- given :: Stored(given[p])
  }

  /** The entries given by the attempts that were recorded, on top of the earlier ones. */
  ghost function GivenAll(given: Rows, attempts: seq<Attempt>): Rows
    decreases |attempts|
  {
    if attempts == [] then given
    else
      var a := attempts[0];
      GivenAll(if Admits(given, a.entry) && a.commits then given[PlaceOf(a.entry) := a.entry] else given, attempts[1..])
  }

  /** The append sees numbers and hashes, which rows keep as given. */
  lemma AdmitsStored(given: Rows, e: Entry)
    ensures Admits(StoredRows(given), e) <==> Admits(given, e)
  {
    var rows := StoredRows(given);
    assert forall t, tail :: IsTail(rows, t, tail) <==> IsTail(given, t, tail);
    if tail :| IsTail(given, e.claims.tenant, tail) {
      assert IsTail(rows, e.claims.tenant, tail);
    }
  }

  /**
   Any run of appends, refused, failed or admitted, of any tenants in any order: the rows
   are those of what was given, and what was given is genuine, linked and never replaced.
   */
  lemma {:induction false} RunKeepsLinked(given: Rows, attempts: seq<Attempt>)
    requires Linked(given)
    ensures Linked(GivenAll(given, attempts)) && RecordedAll(StoredRows(given), attempts) == StoredRows(GivenAll(given, attempts))
    ensures forall p <- given :: p in GivenAll(given, attempts) && GivenAll(given, attempts)[p] == given[p]
    decreases |attempts|
  {
    if attempts != [] {
      var a := attempts[0];
      AdmitsStored(given, a.entry);
      if Admits(given, a.entry) && a.commits {
        AppendKeepsLinked(given, a.entry);
        var more := given[PlaceOf(a.entry) := a.entry];
        assert Recorded(StoredRows(given), a) == StoredRows(more);
        RunKeepsLinked(more, attempts[1..]);
      } else {
        RunKeepsLinked(given, attempts[1..]);
      }
    }
  }

  lemma {:induction false} LinkedReachesBack(given: Rows, tenant: string, k: int, j: int)
    requires Linked(given) && (tenant, k) in given && 1 <= j <= k
    ensures (tenant, j) in given
    decreases k - j
  {
    if j < k {
      assert EntryLinked(given, (tenant, k));
      LinkedReachesBack(given, tenant, k - 1, j);
    }
  }

  /** Each tenant's sequence numbers are 1..n, whatever other tenants did and whatever times were given. */
  lemma ChainsAreContiguous(given: Rows, tenant: string, n: int)
    requires Linked(given) && IsTail(StoredRows(given), tenant, Some(n))
    ensures forall k :: (tenant, k) in StoredRows(given) <==> 1 <= k <= n
  {
    forall k ensures (tenant, k) in given <==> 1 <= k <= n {
      if (tenant, k) in given {
        assert EntryLinked(given, (tenant, k)) && (tenant, k) in StoredRows(given);
      }
      if 1 <= k <= n {
        LinkedReachesBack(given, tenant, n, k);
      }
    }
  }

  // ---------------------------------------------------------------- verification

  datatype Reason = EntryHashMismatch | PrevHashMismatch | SequenceGap | SignatureFailure | GenesisPrevHashNotZero
  /** Unreadable ends the walk with an error instead of a report. */
  datatype Outcome = Sound | Break(at: int, reason: Reason) | Unreadable

  /** One step of the walk: what breaks at `e`, given the entry before it, if any. */
  function StepBreak(prior: Option<Entry>, e: Entry): Option<Reason> {
    if prior.None? && e.claims.sequence == 1 && e.claims.prevHash != Genesis then Some(GenesisPrevHashNotZero)
    else if prior.Some? && e.claims.sequence != prior.value.claims.sequence + 1 then Some(SequenceGap)
    else if prior.Some? && e.claims.prevHash != prior.value.entryHash then Some(PrevHashMismatch)
    else if ComputeEntryHash(e) != e.entryHash then Some(EntryHashMismatch)
    else if VerifySignature(e).Err? then Some(SignatureFailure)
    else None
  }

  /** What breaks at the i-th entry walked. */
  function BreakAt(entries: seq<Entry>, i: nat): Option<Reason>
    requires i < |entries|
  {
    StepBreak(if i == 0 then None else Some(entries[i - 1]), entries[i])
  }

  /** The entries walked and the verdict, from the i-th entry on. */
  function Walk(entries: seq<Entry>, i: nat): (nat, Outcome)
    requires i <= |entries|
    decreases |entries| - i
  {
    if i == |entries| then (i, Sound)
    else if !Readable(entries[i]) then (i, Unreadable)
    else
      match BreakAt(entries, i)
      case Some(reason) => (i + 1, Break(entries[i].claims.sequence, reason))
      case None => Walk(entries, i + 1)
  }

  /** The rows of a tenant in a range, ascending. */
  function Selected(rows: Rows, tenant: string, from: int, upTo: int): seq<Entry>
    decreases upTo - from + 1
  {
    if from > upTo then []
    else (if (tenant, from) in rows then [rows[(tenant, from)]] else []) + Selected(rows, tenant, from + 1, upTo)
  }

  datatype Report = Report(upTo: int, walked: nat, outcome: Outcome)

  /** `answers` and `commits` say whether the database answers its queries and takes the write. */
  class AuditLog {
    var rows: Rows

    constructor (rows: Rows)
      ensures this.rows == rows
    {
      this.rows := rows;
    }

    method Tail(tenant: string) returns (tail: Option<int>)
      ensures IsTail(rows, tenant, tail)
    {
      tail := None;
      var todo := rows.Keys;
      ghost var done: set<Place> := {};
      while todo != {}
        invariant done + todo == rows.Keys
        invariant tail.None? ==> forall p <- done :: p.0 != tenant
        invariant tail.Some? ==> (tenant, tail.value) in rows && forall p <- done :: p.0 == tenant ==> p.1 <= tail.value
        decreases |todo|
      {
        var p :| p in todo;
        todo, done := todo - {p}, done + {p};
        if p.0 == tenant && (tail.None? || p.1 > tail.value) {
          tail := Some(p.1);
        }
      }
    }

    /** Refusals leave the log alone; a hook that fails afterwards finds the row already there. */
    method RecordEntry(e: Entry, answers: bool, commits: bool, hookRuns: bool) returns (r: Result<(), AuditError>)
      modifies this
      ensures rows == Recorded(old(rows), Attempt(e, answers && commits, hookRuns))
      ensures r.Ok? <==> Admits(old(rows), e) && answers && commits && hookRuns
      ensures CheckEntry(e).Err? ==> r == CheckEntry(e)
      ensures CheckEntry(e).Ok? && !answers ==> r == Err(Backend)
      ensures CheckEntry(e).Ok? && answers && !Continues(old(rows), e) ==> r == Err(ChainIntegrity)
      ensures Admits(old(rows), e) && answers && !commits ==> r == Err(Backend)
      ensures Admits(old(rows), e) && answers && commits && !hookRuns ==> r == Err(HookFailed)
    {
      if e.claims.sequence < 1 || e.claims.tenant == "" {
        return Err(InvalidArgument);
      }
      if !Is32Bytes(e.claims.prevHash) || !Is32Bytes(e.entryHash) {
        return Err(InvalidArgument);
      }
      if ComputeEntryHash(e) != e.entryHash {
        return Err(ChainIntegrity);
      }
      r := VerifySignature(e);
      if r.Err? {
        return;
      }
      if !answers {
        return Err(Backend);
      }
      var tail := Tail(e.claims.tenant);
      ghost var start := rows;
      if tail.Some? {
        var last := rows[(e.claims.tenant, tail.value)];
        if e.claims.sequence != tail.value + 1 || e.claims.prevHash != last.entryHash {
          NotContinued(start, e, tail);
          return Err(ChainIntegrity);
        }
      } else if e.claims.sequence != 1 {
        NotContinued(start, e, tail);
        return Err(ChainIntegrity);
      }
      assert Continues(start, e);
      if !commits {
        return Err(Backend);
      }
      rows := rows[(e.claims.tenant, e.claims.sequence) := Stored(e)];
      if !hookRuns {
        return Err(HookFailed);
      }
      return Ok(());
    }

    /** Walk the selected rows in order and stop at the first break, or at a row that cannot be read. */
    method VerifyChain(tenant: string, from: int, upTo: Option<int>, answers: bool) returns (r: Result<Report, AuditError>)
      ensures tenant == "" || from < 1 || (upTo.Some? && upTo.value < from) <==> r == Err(InvalidArgument)
      ensures r != Err(InvalidArgument) && !answers ==> r == Err(Backend)
      ensures r != Err(InvalidArgument) && answers ==>
                exists last :: IsLast(rows, tenant, upTo, last) &&
                               var (walked, outcome) := Walk(Selected(rows, tenant, from, last), 0);
                               r == if outcome == Unreadable then Err(Backend) else Ok(Report(last, walked, outcome))
    {
      if tenant == "" || from < 1 {
        return Err(InvalidArgument);
      }
      if upTo.Some? && upTo.value < from {
        return Err(InvalidArgument);
      }
      if !answers {
        return Err(Backend);
      }
      var last: int;
      if upTo.Some? {
        last := upTo.value;
      } else {
        var tail := Tail(tenant);
        last := if tail.Some? then tail.value else 0;
      }
      assert IsLast(rows, tenant, upTo, last);
      var walked, outcome := WalkRows(Selected(rows, tenant, from, last));
      return if outcome == Unreadable then Err(Backend) else Ok(Report(last, walked, outcome));
    }

    static method WalkRows(entries: seq<Entry>) returns (walked: nat, outcome: Outcome)
      ensures (walked, outcome) == Walk(entries, 0)
    {
      var prior: Option<Entry> := None;
      walked := 0;
      while walked < |entries|
        invariant walked <= |entries| && Walk(entries, 0) == Walk(entries, walked)
        invariant prior == if walked == 0 then None else Some(entries[walked - 1])
      {
        var e := entries[walked];
        if !Readable(e) {
          return walked, Unreadable;
        }
        walked := walked + 1;
        var reason := StepBreak(prior, e);
        if reason.Some? {
          return walked, Break(e.claims.sequence, reason.value);
        }
        prior := Some(e);
      }
      return walked, Sound;
    }
  }

  /** The end of the range: as asked, or the tenant's tail, or 0 without one. */
  ghost predicate IsLast(rows: Rows, tenant: string, upTo: Option<int>, last: int) {
    match upTo
    case Some(n) => last == n
    case None => exists tail :: IsTail(rows, tenant, tail) && last == if tail.Some? then tail.value else 0
  }

  lemma NotContinued(rows: Rows, e: Entry, tail: Option<int>)
    requires IsTail(rows, e.claims.tenant, tail)
    requires tail.None? ==> e.claims.sequence != 1
    requires tail.Some? ==> e.claims.sequence != tail.value + 1 || e.claims.prevHash != rows[(e.claims.tenant, tail.value)].entryHash
    ensures !Continues(rows, e)
  {
  }

  // ---------------------------------------------------------------- what a verdict means

  /** Entries that can be read and follow one another without a break. */
  ghost predicate Unbroken(entries: seq<Entry>, n: nat)
    requires n <= |entries|
  {
    forall i :: 0 <= i < n ==> Passes(entries, i)
  }

  ghost predicate Passes(entries: seq<Entry>, i: nat)
    requires i < |entries|
  {
    Readable(entries[i]) && BreakAt(entries, i).None?
  }

  lemma {:induction false} WalkSkips(entries: seq<Entry>, i: nat)
    requires i <= |entries| && Unbroken(entries, i)
    ensures Walk(entries, 0) == Walk(entries, i)
  {
    if i > 0 {
      WalkSkips(entries, i - 1);
      assert Passes(entries, i - 1);
    }
  }

  /** The walk covers everything when nothing breaks, and otherwise ends at the first entry that does not pass. */
  lemma {:induction false} WalkMeans(entries: seq<Entry>, i: nat)
    requires i <= |entries| && Unbroken(entries, i)
    ensures var (walked, outcome) := Walk(entries, i);
            if Unbroken(entries, |entries|) then walked == |entries| && outcome == Sound
            else if outcome == Unreadable then i <= walked < |entries| && Unbroken(entries, walked) && !Readable(entries[walked])
            else i < walked <= |entries| && Unbroken(entries, walked - 1) && BreakAt(entries, walked - 1).Some? &&
                 outcome == Break(entries[walked - 1].claims.sequence, BreakAt(entries, walked - 1).value)
    decreases |entries| - i
  {
    if i < |entries| {
      assert Unbroken(entries, |entries|) ==> Passes(entries, i);
      if Passes(entries, i) {
        WalkMeans(entries, i + 1);
      }
    }
  }

  /** The reason reported is the first that holds of the entry, in this order, given the entry before it. */
  lemma BreaksName(entries: seq<Entry>, walked: nat, at: int, reason: Reason)
    requires Walk(entries, 0) == (walked, Break(at, reason))
    ensures 0 < walked <= |entries| && at == entries[walked - 1].claims.sequence
    ensures var e, i := entries[walked - 1], walked - 1;
            var rootless := i == 0 && e.claims.sequence == 1 && e.claims.prevHash != Genesis;
            var gap := i > 0 && e.claims.sequence != entries[i - 1].claims.sequence + 1;
            var unlinked := i > 0 && e.claims.prevHash != entries[i - 1].entryHash;
            var altered := e.entryHash != Digest(Document(e.claims, Sized(0)));
            var unsigned := e.claims.actor == "" || e.signature != SignedBy(e.claims.actor, Document(e.claims, e.entryHash));
            && (reason == GenesisPrevHashNotZero <==> rootless)
            && (reason == SequenceGap <==> gap)
            && (reason == PrevHashMismatch <==> !gap && unlinked)
            && (reason == EntryHashMismatch <==> !rootless && !gap && !unlinked && altered)
            && (reason == SignatureFailure <==> !rootless && !gap && !unlinked && !altered && unsigned)
  {
    WalkMeans(entries, 0);
  }

  // ---------------------------------------------------------------- verifying a range

  ghost predicate AtPlaces(rows: Rows) {
    forall p <- rows :: PlaceOf(rows[p]) == p
  }

  /** The range holds exactly the numbers first..last, and they are intact, linked, and rooted if they start at one. */
  ghost predicate Stretch(rows: Rows, tenant: string, from: int, upTo: int, first: int, last: int) {
    && from <= first <= last <= upTo
    && (forall k :: from <= k <= upTo ==> ((tenant, k) in rows <==> first <= k <= last))
    && (forall k :: first <= k <= last ==> (tenant, k) in rows && Intact(rows[(tenant, k)]) && LinkedBack(rows, tenant, first, k))
  }

  ghost predicate LinkedBack(rows: Rows, tenant: string, first: int, k: int) {
    && (tenant, k) in rows
    && (k > first ==> (tenant, k - 1) in rows && rows[(tenant, k)].claims.prevHash == rows[(tenant, k - 1)].entryHash)
    && (k == first == 1 ==> rows[(tenant, k)].claims.prevHash == Genesis)
  }

  lemma {:induction false} SelectedHas(rows: Rows, tenant: string, from: int, upTo: int, k: int) returns (i: nat)
    requires from <= k <= upTo && (tenant, k) in rows
    ensures i < |Selected(rows, tenant, from, upTo)| && Selected(rows, tenant, from, upTo)[i] == rows[(tenant, k)]
    decreases k - from
  {
    if k == from {
      i := 0;
    } else {
      var j := SelectedHas(rows, tenant, from + 1, upTo, k);
      i := if (tenant, from) in rows then j + 1 else j;
    }
  }

  lemma {:induction false} SelectedFrom(rows: Rows, tenant: string, from: int, upTo: int, i: nat) returns (k: int)
    requires i < |Selected(rows, tenant, from, upTo)|
    ensures from <= k <= upTo && (tenant, k) in rows && Selected(rows, tenant, from, upTo)[i] == rows[(tenant, k)]
    decreases upTo - from + 1
  {
    if (tenant, from) in rows && i == 0 {
      k := from;
    } else {
      k := SelectedFrom(rows, tenant, from + 1, upTo, if (tenant, from) in rows then i - 1 else i);
    }
  }

  /** A contiguous range is selected in order. */
  lemma {:induction false} SelectedRange(rows: Rows, tenant: string, from: int, upTo: int, first: int, last: int)
    requires from <= first <= last <= upTo
    requires forall k :: from <= k <= upTo ==> ((tenant, k) in rows <==> first <= k <= last)
    ensures |Selected(rows, tenant, from, upTo)| == last - first + 1
    ensures forall i :: 0 <= i <= last - first ==> Selected(rows, tenant, from, upTo)[i] == rows[(tenant, first + i)]
    decreases upTo - from
  {
    var rest := Selected(rows, tenant, from + 1, upTo);
    if from < first {
      SelectedRange(rows, tenant, from + 1, upTo, first, last);
      assert Selected(rows, tenant, from, upTo) == rest;
    } else {
      assert Selected(rows, tenant, from, upTo) == [rows[(tenant, from)]] + rest;
      if first < last {
        SelectedRange(rows, tenant, from + 1, upTo, first + 1, last);
      } else {
        SelectedNone(rows, tenant, from + 1, upTo);
      }
    }
  }

  lemma {:induction false} SelectedNone(rows: Rows, tenant: string, from: int, upTo: int)
    requires forall k :: from <= k <= upTo ==> (tenant, k) !in rows
    ensures Selected(rows, tenant, from, upTo) == []
    decreases upTo - from + 1
  {
    if from <= upTo {
      SelectedNone(rows, tenant, from + 1, upTo);
    }
  }

  lemma {:induction false} Consecutive(entries: seq<Entry>, i: nat)
    requires i < |entries| && Unbroken(entries, |entries|)
    ensures entries[i].claims.sequence == entries[0].claims.sequence + i
  {
    if i > 0 {
      Consecutive(entries, i - 1);
      assert Passes(entries, i);
    }
  }

  /**
   A range verifies exactly when it holds nothing, or one contiguous chained stretch. Rows
   missing before or after the stretch do not count as a break; the number walked shows them.
   */
  lemma VerifiesIffStretch(rows: Rows, tenant: string, from: int, upTo: int)
    requires AtPlaces(rows)
    ensures var (walked, outcome) := Walk(Selected(rows, tenant, from, upTo), 0);
            && (outcome == Sound <==> Selected(rows, tenant, from, upTo) == [] ||
                                      exists first, last :: Stretch(rows, tenant, from, upTo, first, last))
            && (forall first, last :: Stretch(rows, tenant, from, upTo, first, last) ==> walked == last - first + 1)
  {
    var sel := Selected(rows, tenant, from, upTo);
    WalkMeans(sel, 0);
    forall first, last | Stretch(rows, tenant, from, upTo, first, last) ensures Unbroken(sel, |sel|) && |sel| == last - first + 1 {
      StretchWalks(rows, tenant, from, upTo, first, last);
    }
    if Unbroken(sel, |sel|) && sel != [] {
      WalkedIsStretch(rows, tenant, from, upTo);
    }
  }

  lemma StretchWalks(rows: Rows, tenant: string, from: int, upTo: int, first: int, last: int)
    requires AtPlaces(rows) && Stretch(rows, tenant, from, upTo, first, last)
    ensures var sel := Selected(rows, tenant, from, upTo); Unbroken(sel, |sel|) && |sel| == last - first + 1
  {
    var sel := Selected(rows, tenant, from, upTo);
    SelectedRange(rows, tenant, from, upTo, first, last);
    forall i | 0 <= i < |sel| ensures Passes(sel, i) {
      assert LinkedBack(rows, tenant, first, first + i) && PlaceOf(rows[(tenant, first + i)]) == (tenant, first + i);
      if i > 0 {
        assert sel[i - 1] == rows[(tenant, first + i - 1)] && PlaceOf(sel[i - 1]) == (tenant, first + i - 1);
      }
    }
  }

  lemma WalkedIsStretch(rows: Rows, tenant: string, from: int, upTo: int)
    requires AtPlaces(rows)
    requires var sel := Selected(rows, tenant, from, upTo); sel != [] && Unbroken(sel, |sel|)
    ensures var sel := Selected(rows, tenant, from, upTo);
            Stretch(rows, tenant, from, upTo, sel[0].claims.sequence, sel[0].claims.sequence + |sel| - 1)
  {
    var sel := Selected(rows, tenant, from, upTo);
    var first, last := sel[0].claims.sequence, sel[0].claims.sequence + |sel| - 1;
    forall i | 0 <= i < |sel| ensures PlacedAt(rows, tenant, from, upTo, sel, first, i) {
      var k := SelectedFrom(rows, tenant, from, upTo, i);
      Consecutive(sel, i);
    }
    forall k | from <= k <= upTo && (tenant, k) in rows ensures first <= k <= last {
      var i := SelectedHas(rows, tenant, from, upTo, k);
      Consecutive(sel, i);
    }
    forall k | first <= k <= last ensures (tenant, k) in rows && Intact(rows[(tenant, k)]) && LinkedBack(rows, tenant, first, k) {
      assert PlacedAt(rows, tenant, from, upTo, sel, first, k - first);
      assert Passes(sel, k - first);
      assert k > first ==> PlacedAt(rows, tenant, from, upTo, sel, first, k - first - 1);
    }
    assert PlacedAt(rows, tenant, from, upTo, sel, first, 0) && PlacedAt(rows, tenant, from, upTo, sel, first, |sel| - 1);
  }

  ghost predicate PlacedAt(rows: Rows, tenant: string, from: int, upTo: int, sel: seq<Entry>, first: int, i: int)
    requires 0 <= i < |sel|
  {
    from <= first + i <= upTo && (tenant, first + i) in rows && sel[i] == rows[(tenant, first + i)]
  }

  // ---------------------------------------------------------------- logs that appends built

  /** A range that starts the log starts it with no bridge. */
  ghost predicate Rooted(given: Rows, tenant: string, from: int) {
    from > 1 || ((tenant, 1) in given && given[(tenant, 1)].claims.prevHash == Genesis)
  }

  ghost predicate AllPlain(given: Rows, tenant: string, from: int, upTo: int) {
    forall k :: from <= k <= upTo ==> (tenant, k) in given && Plain(given[(tenant, k)])
  }

  /**
   A log that appends built verifies exactly when the range does not start it with a bridge
   and every entry in range was given at whole microseconds of a four-digit year.
   */
  lemma BuiltLogVerifiesIff(given: Rows, tenant: string, n: int, from: int)
    requires Linked(given) && IsTail(StoredRows(given), tenant, Some(n)) && 1 <= from <= n
    ensures var (walked, outcome) := Walk(Selected(StoredRows(given), tenant, from, n), 0);
            && (outcome == Sound <==> Rooted(given, tenant, from) && AllPlain(given, tenant, from, n))
            && (outcome == Sound ==> walked == n - from + 1)
  {
    var rows := StoredRows(given);
    ChainsAreContiguous(given, tenant, n);
    StoredAtPlaces(given);
    VerifiesIffStretch(rows, tenant, from, n);
    BuiltStretchIff(given, tenant, n, from);
    SelectedRange(rows, tenant, from, n, from, n);
    forall first, last | Stretch(rows, tenant, from, n, first, last) ensures first == from && last == n {
      assert (tenant, from) in rows && (tenant, n) in rows;
    }
  }

  lemma BuiltStretchIff(given: Rows, tenant: string, n: int, from: int)
    requires Linked(given) && 1 <= from <= n && (forall k :: (tenant, k) in StoredRows(given) <==> 1 <= k <= n)
    ensures Stretch(StoredRows(given), tenant, from, n, from, n) <==> Rooted(given, tenant, from) && AllPlain(given, tenant, from, n)
  {
    var rows := StoredRows(given);
    forall k | from <= k <= n
      ensures (tenant, k) in given && (Intact(rows[(tenant, k)]) <==> Plain(given[(tenant, k)]))
      ensures LinkedBack(rows, tenant, from, k) <==> k > from || Rooted(given, tenant, from)
    {
      assert (tenant, k) in rows && EntryLinked(given, (tenant, k));
      StoredGenuineIff(given[(tenant, k)]);
    }
  }

  /** Otherwise the walk ends at the first entry at fault, with what is at fault: its year, its place as a bridge, or its time. */
  lemma BuiltLogBreaksWhere(given: Rows, tenant: string, n: int, from: int, k: int)
    requires Linked(given) && IsTail(StoredRows(given), tenant, Some(n)) && 1 <= from <= k <= n
    requires AllPlain(given, tenant, from, k - 1) && (k > from ==> Rooted(given, tenant, from))
    requires (tenant, k) in given && !(Plain(given[(tenant, k)]) && Rooted(given, tenant, k))
    ensures Walk(Selected(StoredRows(given), tenant, from, n), 0) ==
            if !Readable(given[(tenant, k)]) then (k - from, Unreadable)
            else (k - from + 1, Break(k, if !Rooted(given, tenant, k) then GenesisPrevHashNotZero else EntryHashMismatch))
  {
    var sel := Selected(StoredRows(given), tenant, from, n);
    SelectedIsGiven(given, tenant, n, from);
    assert RowOf(given, tenant, from, sel, k - from);
    WalkEndsAt(given, tenant, from, sel, k - from);
  }

  lemma SelectedIsGiven(given: Rows, tenant: string, n: int, from: int)
    requires Linked(given) && IsTail(StoredRows(given), tenant, Some(n)) && 1 <= from <= n
    ensures forall i :: 0 <= i <= n - from ==> RowOf(given, tenant, from, Selected(StoredRows(given), tenant, from, n), i)
  {
    ChainsAreContiguous(given, tenant, n);
    SelectedRange(StoredRows(given), tenant, from, n, from, n);
  }

  lemma WalkEndsAt(given: Rows, tenant: string, from: int, sel: seq<Entry>, i: nat)
    requires Linked(given) && from >= 1 && forall j :: 0 <= j <= i ==> RowOf(given, tenant, from, sel, j)
    requires AllPlain(given, tenant, from, from + i - 1) && (i > 0 ==> Rooted(given, tenant, from))
    requires (tenant, from + i) in given && i < |sel| && !(Plain(given[(tenant, from + i)]) && Rooted(given, tenant, from + i))
    ensures var e := given[(tenant, from + i)];
            Walk(sel, 0) == if !Readable(e) then (i, Unreadable)
                            else (i + 1, Break(from + i, if !Rooted(given, tenant, from + i) then GenesisPrevHashNotZero else EntryHashMismatch))
  {
    forall j | 0 <= j < i ensures Passes(sel, j) {
      assert RowOf(given, tenant, from, sel, j) && (j > 0 ==> RowOf(given, tenant, from, sel, j - 1));
      assert Plain(given[(tenant, from + j)]);
      GivenPasses(given, tenant, from, sel, j);
    }
    WalkSkips(sel, i);
    assert RowOf(given, tenant, from, sel, i) && (i > 0 ==> RowOf(given, tenant, from, sel, i - 1));
    GivenBreak(given, tenant, from, sel, i);
  }

  ghost predicate RowOf(given: Rows, tenant: string, from: int, sel: seq<Entry>, i: int) {
    0 <= i < |sel| && (tenant, from + i) in given && sel[i] == Stored(given[(tenant, from + i)])
  }

  /** What the walk finds at an entry of a built log. */
  lemma GivenBreak(given: Rows, tenant: string, from: int, sel: seq<Entry>, i: nat)
    requires Linked(given) && from >= 1
    requires RowOf(given, tenant, from, sel, i) && (i > 0 ==> RowOf(given, tenant, from, sel, i - 1))
    ensures var e := given[(tenant, from + i)];
            && sel[i].claims.sequence == from + i && (Readable(sel[i]) <==> Readable(e))
            && BreakAt(sel, i) == if i == 0 && !Rooted(given, tenant, from) then Some(GenesisPrevHashNotZero)
                                  else if e.claims.recordedAt % 1000 != 0 then Some(EntryHashMismatch) else None
  {
    var e := given[(tenant, from + i)];
    assert EntryLinked(given, (tenant, from + i));
    StoredGenuineIff(e);
    if i > 0 {
      assert EntryLinked(given, (tenant, from + i - 1));
    }
    assert ComputeEntryHash(sel[i]) == sel[i].entryHash <==> e.claims.recordedAt % 1000 == 0;
  }

  lemma GivenPasses(given: Rows, tenant: string, from: int, sel: seq<Entry>, i: nat)
    requires Linked(given) && from >= 1 && Rooted(given, tenant, from)
    requires RowOf(given, tenant, from, sel, i) && (i > 0 ==> RowOf(given, tenant, from, sel, i - 1))
    requires Plain(given[(tenant, from + i)])
    ensures Passes(sel, i)
  {
    GivenBreak(given, tenant, from, sel, i);
  }

  lemma StretchVerifies(rows: Rows, tenant: string, from: int, upTo: int, first: int, last: int)
    requires AtPlaces(rows) && Stretch(rows, tenant, from, upTo, first, last)
    ensures Walk(Selected(rows, tenant, from, upTo), 0) == (last - first + 1, Sound)
  {
    StretchWalks(rows, tenant, from, upTo, first, last);
    WalkMeans(Selected(rows, tenant, from, upTo), 0);
  }

  lemma StoredAtPlaces(given: Rows)
    requires Linked(given)
    ensures AtPlaces(StoredRows(given))
  {
    forall p <- given ensures PlaceOf(Stored(given[p])) == p { assert EntryLinked(given, p); }
  }

  /** A tenant's genuine first entry. */
  function Opening(tenant: string, actor: string, prevHash: Hash, at: int): Entry {
    var claims := Claims("first", 1, tenant, actor, "open", "log", "log", JNull, prevHash, at);
    var hash := Digest(Document(claims, Sized(0)));
    Entry(claims, hash, SignedBy(actor, Document(claims, hash)))
  }

  /**
   The append admits such an entry whatever its `prev_hash` and its time, and verification
   of the log it starts then fails on a far year, breaks at a bridge, breaks at a time
   finer than a microsecond, and passes otherwise.
   */
  lemma OpeningIsAdmitted(tenant: string, actor: string, prevHash: Hash, at: int)
    requires tenant != "" && actor != "" && Is32Bytes(prevHash)
    ensures var e := Opening(tenant, actor, prevHash, at);
            && Admits(map[], e)
            && Walk(Selected(Recorded(map[], Attempt(e, true, true)), tenant, 1, 1), 0) ==
               if !(YEAR_0 <= at < YEAR_10000) then (0, Unreadable)
               else if prevHash != Genesis then (1, Break(1, GenesisPrevHashNotZero))
               else if at % 1000 != 0 then (1, Break(1, EntryHashMismatch))
               else (1, Sound)
  {
    var e := Opening(tenant, actor, prevHash, at);
    assert IsTail(map[], tenant, None);
    assert Continues(map[], e);
    var given: Rows := map[(tenant, 1) := e];
    AppendKeepsLinked(map[], e);
    assert Recorded(map[], Attempt(e, true, true)) == StoredRows(given);
    assert IsTail(StoredRows(given), tenant, Some(1));
    if Plain(e) && Rooted(given, tenant, 1) {
      BuiltLogVerifiesIff(given, tenant, 1, 1);
    } else {
      BuiltLogBreaksWhere(given, tenant, 1, 1, 1);
    }
  }

  /** Cutting the newest entries off a verified log leaves a log that verifies; only the count is shorter. */
  lemma TruncationPasses(rows: Rows, tenant: string, n: int, m: int)
    requires AtPlaces(rows) && Stretch(rows, tenant, 1, n, 1, n) && 1 <= m <= n
    ensures var cut := map p <- rows | p.0 != tenant || p.1 <= m :: rows[p];
            Walk(Selected(cut, tenant, 1, n), 0) == (m, Sound)
  {
    var cut := map p <- rows | p.0 != tenant || p.1 <= m :: rows[p];
    forall k | 1 <= k <= m ensures LinkedBack(cut, tenant, 1, k) && Intact(cut[(tenant, k)]) {
      assert LinkedBack(rows, tenant, 1, k);
    }
    assert Stretch(cut, tenant, 1, n, 1, m);
    StretchVerifies(cut, tenant, 1, n, 1, m);
  }

  /** Two fully verified chains that end in the same hash agree on every entry but for signatures. */
  lemma {:induction false} SameTailSameChain(a: Rows, b: Rows, s: string, t: string, n: int, m: int, k: int)
    requires AtPlaces(a) && AtPlaces(b) && Stretch(a, s, 1, n, 1, n) && Stretch(b, t, 1, m, 1, m)
    requires a[(s, n)].entryHash == b[(t, m)].entryHash && 1 <= k <= n
    ensures n == m && s == t
    ensures a[(s, k)].claims == b[(t, k)].claims && a[(s, k)].entryHash == b[(t, k)].entryHash
    decreases n - k
  {
    assert Intact(a[(s, n)]) && Intact(b[(t, m)]);
    assert a[(s, n)].claims == b[(t, m)].claims;
    assert PlaceOf(a[(s, n)]) == (s, n) && PlaceOf(b[(t, m)]) == (t, m);
    if k < n {
      SameTailSameChain(a, b, s, t, n, m, k + 1);
      assert LinkedBack(a, s, 1, k + 1) && LinkedBack(b, t, 1, k + 1);
      assert Intact(a[(s, k)]) && Intact(b[(t, k)]);
    }
  }
}
