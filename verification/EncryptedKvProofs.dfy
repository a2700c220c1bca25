/** The sealed table is a plain map, and the opener keeps its promises over any history. */
module EncryptedKvProofs {
  import opened Common
  import opened EncryptedKv

  // ---------------------------------------------------------------- blinded names

  /** The pair of blinds names one (namespace, key), although the key blind alone does not. */
  lemma SlotInjective(keys: Keys, ns: Bytes, key: Bytes, ns': Bytes, key': Bytes)
    requires SlotOf(keys, ns, key) == SlotOf(keys, ns', key')
    ensures ns == ns' && key == key'
  {
    assert NsBlind(keys, ns).message == NsBlind(keys, ns').message;
    assert (ns + key)[|ns|..] == key && (ns' + key')[|ns'|..] == key';
    assert KeyBlind(keys, ns, key).message == KeyBlind(keys, ns', key').message;
  }

  /** Key blinds collide exactly on equal concatenations, so the namespace blind beside them is needed. */
  lemma KeyBlindCollides(keys: Keys, ns: Bytes, key: Bytes, cut: nat)
    requires cut <= |key|
    ensures KeyBlind(keys, ns, key) == KeyBlind(keys, ns + key[..cut], key[cut..])
    ensures cut > 0 ==> SlotOf(keys, ns, key) != SlotOf(keys, ns + key[..cut], key[cut..])
  {
  }

  /** Blinding, sealing and the root use different keys, and each namespace seals under its own. */
  lemma KeysSeparate(pass: Bytes, pass': Bytes, ns: Bytes, ns': Bytes)
    ensures Derive(pass).root != Derive(pass).blind && ValueKey(Derive(pass), ns) != Derive(pass).blind
    ensures ValueKey(Derive(pass), ns) != Derive(pass).root
    ensures ValueKey(Derive(pass), ns) == ValueKey(Derive(pass'), ns') ==> pass == pass' && ns == ns'
    ensures Derive(pass).blind == Derive(pass').blind ==> pass == pass'
  {
  }

  /** Whatever the table holds, a value read is one sealed under the namespace's own key; any other row is refused. */
  lemma ReadsAreAuthentic(keys: Keys, table: Table, ns: Bytes, key: Bytes, v: Bytes)
    requires ns != [] && ns != Ascii("__verifier__")
    ensures Fetch(keys, table, ns, key, true) == Ok(None) <==> SlotOf(keys, ns, key) !in table
    ensures Fetch(keys, table, ns, key, true) == Ok(Some(v)) <==>
              && SlotOf(keys, ns, key) in table
              && var row := table[SlotOf(keys, ns, key)]; |row.nonce| == 24 && row.valueCt == Sealed(ValueKey(keys, ns), row.nonce, v)
    ensures Fetch(keys, table, ns, key, true).Err? ==> Fetch(keys, table, ns, key, true) == Err(AuthFailure)
  {
  }

  ghost predicate Authentic(key: Secret, row: Row, prefix: Bytes) {
    && |row.keyNonce| == 24 && row.keyCt.Sealed? && row.keyCt.key == key && row.keyCt.nonce == row.keyNonce
    && (prefix <= row.keyCt.plaintext ==>
          |row.nonce| == 24 && row.valueCt.Sealed? && row.valueCt.key == key && row.valueCt.nonce == row.nonce)
  }

  /** A scan fails exactly when it has to open something that is not sealed under the namespace's key. */
  lemma {:induction false} ScanFailsIff(key: Secret, rows: seq<Row>, prefix: Bytes)
    ensures ScanRows(key, rows, prefix).Ok? <==> forall row <- rows :: Authentic(key, row, prefix)
    ensures ScanRows(key, rows, prefix).Err? ==> ScanRows(key, rows, prefix) == Err(AuthFailure)
  {
    if rows != [] {
      ScanFailsIff(key, rows[1..], prefix);
      assert rows == [rows[0]] + rows[1..];
      assert (forall row <- rows :: Authentic(key, row, prefix)) <==>
          Authentic(key, rows[0], prefix) && forall row <- rows[1..] :: Authentic(key, row, prefix);
    }
  }

  // ---------------------------------------------------------------- the table as a map

  type Plain = map<(Bytes, Bytes), Bytes>

  ghost predicate RowHolds(keys: Keys, ns: Bytes, key: Bytes, value: Bytes, row: Row) {
    && |row.nonce| == NONCE_LEN && |row.keyNonce| == NONCE_LEN
    && row.valueCt == Sealed(ValueKey(keys, ns), row.nonce, value)
    && row.keyCt == Sealed(ValueKey(keys, ns), row.keyNonce, key)
  }

  ghost predicate EntryStored(keys: Keys, table: Table, m: Plain, e: (Bytes, Bytes))
    requires e in m
  {
    && !BadNamespace(e.0)
    && SlotOf(keys, e.0, e.1) in table
    && RowHolds(keys, e.0, e.1, m[e], table[SlotOf(keys, e.0, e.1)])
  }

  ghost predicate SlotExplained(keys: Keys, m: Plain, slot: Slot) {
    slot == VERIFIER_SLOT || exists e :: e in m && slot == SlotOf(keys, e.0, e.1)
  }

  /** The table holds exactly the map's entries, sealed, and the verifier row. */
  ghost predicate Represents(keys: Keys, table: Table, m: Plain) {
    && (forall e <- m :: EntryStored(keys, table, m, e))
    && (forall slot <- table :: SlotExplained(keys, m, slot))
  }

  lemma FetchIsLookup(keys: Keys, table: Table, m: Plain, ns: Bytes, key: Bytes)
    requires Represents(keys, table, m) && !BadNamespace(ns)
    ensures Fetch(keys, table, ns, key, true) == Ok(if (ns, key) in m then Some(m[(ns, key)]) else None)
  {
    var slot := SlotOf(keys, ns, key);
    if (ns, key) in m {
      assert EntryStored(keys, table, m, (ns, key));
    } else if slot in table {
      assert SlotExplained(keys, m, slot);
      var e :| e in m && slot == SlotOf(keys, e.0, e.1);
      SlotInjective(keys, ns, key, e.0, e.1);
      assert false;
    }
  }

  lemma UpsertIsUpdate(keys: Keys, table: Table, m: Plain, ns: Bytes, key: Bytes, value: Bytes, draws: Draws)
    requires Represents(keys, table, m) && Upsert(keys, table, ns, key, value, draws, true).1.Ok?
    ensures Represents(keys, Upsert(keys, table, ns, key, value, draws, true).0, m[(ns, key) := value])
  {
    var t', m' := Upsert(keys, table, ns, key, value, draws, true).0, m[(ns, key) := value];
    var slot := SlotOf(keys, ns, key);
    forall e <- m' ensures EntryStored(keys, t', m', e) {
      if e != (ns, key) {
        assert EntryStored(keys, table, m, e);
        if SlotOf(keys, e.0, e.1) == slot {
          SlotInjective(keys, ns, key, e.0, e.1);
        }
      }
    }
    forall s <- t' ensures SlotExplained(keys, m', s) {
      if s == slot {
        assert (ns, key) in m';
      } else {
        assert SlotExplained(keys, m, s);
        if s != VERIFIER_SLOT {
          var e :| e in m && s == SlotOf(keys, e.0, e.1);
          assert e in m';
        }
      }
    }
  }

  lemma RemoveIsRemoval(keys: Keys, table: Table, m: Plain, ns: Bytes, key: Bytes)
    requires Represents(keys, table, m) && !BadNamespace(ns)
    ensures Represents(keys, Remove(keys, table, ns, key, true).0, m - {(ns, key)})
  {
    var t', m' := Remove(keys, table, ns, key, true).0, m - {(ns, key)};
    var slot := SlotOf(keys, ns, key);
    forall e <- m' ensures EntryStored(keys, t', m', e) {
      assert EntryStored(keys, table, m, e);
      if SlotOf(keys, e.0, e.1) == slot {
        SlotInjective(keys, ns, key, e.0, e.1);
      }
    }
    forall s <- t' ensures SlotExplained(keys, m', s) {
      assert SlotExplained(keys, m, s);
      if s != VERIFIER_SLOT {
        var e :| e in m && s == SlotOf(keys, e.0, e.1);
        assert e in m';
      }
    }
  }

  // ---------------------------------------------------------------- scan

  /** A listing of exactly the entries of one namespace whose key has the prefix, each once. */
  ghost predicate Lists(found: seq<Pair>, m: Plain, ns: Bytes, prefix: Bytes) {
    && (forall p :: p in found <==> (ns, p.0) in m && m[(ns, p.0)] == p.1 && prefix <= p.0)
    && (forall i, j :: 0 <= i < j < |found| ==> found[i].0 != found[j].0)
  }

  /** The same for the rows of `order` only. */
  ghost predicate ListsPart(found: seq<Pair>, keys: Keys, m: Plain, ns: Bytes, prefix: Bytes, order: seq<Slot>) {
    && (forall p :: p in found <==>
                    SlotOf(keys, ns, p.0) in order && (ns, p.0) in m && m[(ns, p.0)] == p.1 && prefix <= p.0)
    && (forall i, j :: 0 <= i < j < |found| ==> found[i].0 != found[j].0)
  }

  /** A row of the namespace is the sealed form of one entry. */
  lemma RowInNamespace(keys: Keys, table: Table, m: Plain, ns: Bytes, slot: Slot) returns (key: Bytes)
    requires Represents(keys, table, m) && slot in table && slot.0 == NsBlind(keys, ns)
    ensures (ns, key) in m && slot == SlotOf(keys, ns, key) && RowHolds(keys, ns, key, m[(ns, key)], table[slot])
  {
    assert SlotExplained(keys, m, slot);
    var e :| e in m && slot == SlotOf(keys, e.0, e.1);
    assert e.0 == ns by { assert NsBlind(keys, e.0).message == NsBlind(keys, ns).message; }
    key := e.1;
    assert EntryStored(keys, table, m, e);
  }

  lemma RowsAtTail(table: Table, order: seq<Slot>)
    requires order != [] && forall s <- order :: s in table
    ensures forall s <- order[1..] :: s in table
    ensures RowsAt(table, order)[1..] == RowsAt(table, order[1..])
  {
  }

  lemma ScanStep(keys: Keys, ns: Bytes, key: Bytes, value: Bytes, rows: seq<Row>, prefix: Bytes, tail: seq<Pair>)
    requires rows != [] && RowHolds(keys, ns, key, value, rows[0])
    requires ScanRows(ValueKey(keys, ns), rows[1..], prefix) == Ok(tail)
    ensures ScanRows(ValueKey(keys, ns), rows, prefix) == Ok(if prefix <= key then [(key, value)] + tail else tail)
  {
  }

  lemma {:induction false} ScanPart(keys: Keys, table: Table, m: Plain, ns: Bytes, prefix: Bytes, order: seq<Slot>)
    requires Represents(keys, table, m)
    requires forall s <- order :: s in table && s.0 == NsBlind(keys, ns)
    requires forall i, j :: 0 <= i < j < |order| ==> order[i] != order[j]
    ensures var r := ScanRows(ValueKey(keys, ns), RowsAt(table, order), prefix);
            r.Ok? && ListsPart(r.value, keys, m, ns, prefix, order)
    decreases |order|
  {
    if order != [] {
      var slot, rest := order[0], order[1..];
      assert slot in order && forall s <- rest :: s in order;
      RowsAtTail(table, order);
      ScanPart(keys, table, m, ns, prefix, rest);
      var key := RowInNamespace(keys, table, m, ns, slot);
      var tail := ScanRows(ValueKey(keys, ns), RowsAt(table, rest), prefix).value;
      assert RowsAt(table, order)[0] == table[slot];
      ScanStep(keys, ns, key, m[(ns, key)], RowsAt(table, order), prefix, tail);
      ScanGrows(keys, m, ns, prefix, order, key, tail);
    }
  }

  lemma ScanGrows(keys: Keys, m: Plain, ns: Bytes, prefix: Bytes, order: seq<Slot>, key: Bytes, tail: seq<Pair>)
    requires order != [] && order[0] == SlotOf(keys, ns, key) && (ns, key) in m
    requires forall i, j :: 0 <= i < j < |order| ==> order[i] != order[j]
    requires ListsPart(tail, keys, m, ns, prefix, order[1..])
    ensures ListsPart(if prefix <= key then [(key, m[(ns, key)])] + tail else tail, keys, m, ns, prefix, order)
  {
    var head := (key, m[(ns, key)]);
    var found := if prefix <= key then [head] + tail else tail;
    HeadNotInTail(order);
    forall p: Pair
      ensures p in found <==> SlotOf(keys, ns, p.0) in order && (ns, p.0) in m && m[(ns, p.0)] == p.1 && prefix <= p.0
    {
      assert p in found <==> (prefix <= key && p == head) || p in tail;
      if SlotOf(keys, ns, p.0) == order[0] {
        SlotInjective(keys, ns, p.0, ns, key);
      }
    }
    forall p <- tail ensures p.0 != key {
      assert SlotOf(keys, ns, p.0) in order[1..];
    }
    KeysStayDistinct(head, tail);
  }

  lemma HeadNotInTail(order: seq<Slot>)
    requires order != [] && forall i, j :: 0 <= i < j < |order| ==> order[i] != order[j]
    ensures order[0] !in order[1..] && forall s :: s in order <==> s == order[0] || s in order[1..]
  {
    forall i | 0 <= i < |order[1..]| ensures order[1..][i] != order[0] { assert order[1..][i] == order[i + 1]; }
  }

  lemma KeysStayDistinct(head: Pair, tail: seq<Pair>)
    requires (forall i, j :: 0 <= i < j < |tail| ==> tail[i].0 != tail[j].0) && forall p <- tail :: p.0 != head.0
    ensures forall i, j :: 0 <= i < j < |[head] + tail| ==> ([head] + tail)[i].0 != ([head] + tail)[j].0
  {
    var all := [head] + tail;
    forall i, j | 0 <= i < j < |all| ensures all[i].0 != all[j].0 {
      assert all[j] == tail[j - 1] && tail[j - 1] in tail;
    }
  }

  /** Scan returns exactly the matching pairs, each once, in whatever order the rows come. */
  lemma ScanIsListing(keys: Keys, table: Table, m: Plain, ns: Bytes, prefix: Bytes, order: seq<Slot>)
    requires Represents(keys, table, m) && !BadNamespace(ns) && Enumerates(order, table, NsBlind(keys, ns))
    ensures var r := ScanRows(ValueKey(keys, ns), RowsAt(table, order), prefix);
            r.Ok? && Lists(r.value, m, ns, prefix)
  {
    ScanPart(keys, table, m, ns, prefix, order);
    forall k | (ns, k) in m ensures SlotOf(keys, ns, k) in order {
      assert EntryStored(keys, table, m, (ns, k));
    }
  }

  // ---------------------------------------------------------------- whole sessions

  datatype Op =
    | GetOp(ns: Bytes, key: Bytes, answers: bool)
    | PutOp(ns: Bytes, key: Bytes, value: Bytes, draws: Draws, commits: bool)
    | DeleteOp(ns: Bytes, key: Bytes, commits: bool)
    | ScanOp(ns: Bytes, prefix: Bytes, order: seq<Slot>, answers: bool)
    | ReopenOp(passphrase: Bytes, draws: Draws, answers: bool, commits: bool)

  datatype Answer = Got(Result<Option<Bytes>, KvError>) | Did(Result<(), KvError>) | Listed(Result<seq<Pair>, KvError>)

  /** A scan's row order is one the table allows. */
  ghost predicate Possible(keys: Keys, table: Table, op: Op) {
    op.ScanOp? ==> Enumerates(op.order, table, NsBlind(keys, op.ns))
  }

  ghost function Perform(keys: Keys, table: Table, op: Op): (Table, Answer)
    requires Possible(keys, table, op)
  {
    match op
    case GetOp(ns, key, answers) => (table, Got(Fetch(keys, table, ns, key, answers)))
    case PutOp(ns, key, value, draws, commits) => var (t, r) := Upsert(keys, table, ns, key, value, draws, commits); (t, Did(r))
    case DeleteOp(ns, key, commits) => var (t, r) := Remove(keys, table, ns, key, commits); (t, Did(r))
    case ScanOp(ns, prefix, order, answers) =>
      (table, Listed(if BadNamespace(ns) then Err(InvalidArgument)
                     else if !answers then Err(Backend)
                     else ScanRows(ValueKey(keys, ns), RowsAt(table, order), prefix)))
    case ReopenOp(pass, draws, answers, commits) => var (t, r) := CheckVerifier(Derive(pass), table, draws, answers, commits); (t, Did(r))
  }

  /** The namespaces no operation may use: the empty one and the verifier's. */
  predicate Reserved(ns: Bytes) {
    ns == [] || ns == Ascii("__verifier__")
  }

  /** What a plain map does. */
  function PlainNext(m: Plain, op: Op): Plain {
    match op
    case PutOp(ns, key, value, draws, commits) =>
      if Reserved(ns) || draws.first.None? || draws.second.None? || !commits then m else m[(ns, key) := value]
    case DeleteOp(ns, key, commits) => if Reserved(ns) || !commits then m else m - {(ns, key)}
    case _ => m
  }

  /** What a plain map answers. */
  ghost predicate PlainAnswers(pass: Bytes, m: Plain, op: Op, a: Answer) {
    match op
    case GetOp(ns, key, answers) =>
      a == Got(if Reserved(ns) then Err(InvalidArgument)
               else if !answers then Err(Backend)
               else Ok(if (ns, key) in m then Some(m[(ns, key)]) else None))
    case PutOp(ns, _, _, draws, commits) =>
      a == Did(if Reserved(ns) then Err(InvalidArgument)
               else if draws.first.None? || draws.second.None? then Err(Crypto)
               else if commits then Ok(()) else Err(Backend))
    case DeleteOp(ns, _, commits) =>
      a == Did(if Reserved(ns) then Err(InvalidArgument) else if commits then Ok(()) else Err(Backend))
    case ScanOp(ns, prefix, _, answers) =>
      if Reserved(ns) then a == Listed(Err(InvalidArgument))
      else if !answers then a == Listed(Err(Backend))
      else exists found :: a == Listed(Ok(found)) && Lists(found, m, ns, prefix)
    case ReopenOp(p, _, answers, _) => a == Did(if !answers then Err(Backend) else if p == pass then Ok(()) else Err(WrongPassphrase))
  }

  lemma StepAgrees(pass: Bytes, table: Table, m: Plain, op: Op)
    requires KeyedBy(pass, table) && Represents(Derive(pass), table, m) && Possible(Derive(pass), table, op)
    ensures PlainAnswers(pass, m, op, Perform(Derive(pass), table, op).1)
    ensures KeyedBy(pass, Perform(Derive(pass), table, op).0)
    ensures Represents(Derive(pass), Perform(Derive(pass), table, op).0, PlainNext(m, op))
  {
    var keys := Derive(pass);
    match op
    case GetOp(ns, key, answers) => if !BadNamespace(ns) { FetchIsLookup(keys, table, m, ns, key); }
    case PutOp(ns, key, value, draws, commits) =>
      if Upsert(keys, table, ns, key, value, draws, commits).1.Ok? { UpsertIsUpdate(keys, table, m, ns, key, value, draws); }
    case DeleteOp(ns, key, commits) =>
      if !BadNamespace(ns) && commits { RemoveIsRemoval(keys, table, m, ns, key); }
    case ScanOp(ns, prefix, order, answers) => if !BadNamespace(ns) { ScanIsListing(keys, table, m, ns, prefix, order); }
    case ReopenOp(p, draws, answers, commits) => OpensIff(p, pass, table, draws, commits);
  }

  /** A store in use opens for the passphrase that keyed it and for no other, and opening writes nothing. */
  lemma OpensIff(p: Bytes, pass: Bytes, table: Table, draws: Draws, commits: bool)
    requires KeyedBy(pass, table)
    ensures CheckVerifier(Derive(p), table, draws, true, commits) == (table, if p == pass then Ok(()) else Err(WrongPassphrase))
  {
  }

  /** A first open keys the empty store. */
  lemma FirstOpenKeys(pass: Bytes, draws: Draws)
    requires draws.first.Some? && draws.second.Some?
    ensures CheckVerifier(Derive(pass), map[], draws, true, true).1 == Ok(())
    ensures KeyedBy(pass, CheckVerifier(Derive(pass), map[], draws, true, true).0)
    ensures Represents(Derive(pass), CheckVerifier(Derive(pass), map[], draws, true, true).0, map[])
  {
  }

  /** A run of operations in which every answer is the plain map's. */
  ghost predicate Simulates(pass: Bytes, table: Table, m: Plain, ops: seq<Op>)
    decreases |ops|
  {
    ops == [] ||
    (Possible(Derive(pass), table, ops[0]) ==>
       && PlainAnswers(pass, m, ops[0], Perform(Derive(pass), table, ops[0]).1)
       && Simulates(pass, Perform(Derive(pass), table, ops[0]).0, PlainNext(m, ops[0]), ops[1..]))
  }

  /** Every sequence of gets, puts, deletes, scans and reopens is answered as a plain map answers it. */
  lemma {:induction false} SealedTableIsAMap(pass: Bytes, table: Table, m: Plain, ops: seq<Op>)
    requires KeyedBy(pass, table) && Represents(Derive(pass), table, m)
    ensures Simulates(pass, table, m, ops)
    decreases |ops|
  {
    if ops != [] && Possible(Derive(pass), table, ops[0]) {
      StepAgrees(pass, table, m, ops[0]);
      SealedTableIsAMap(pass, Perform(Derive(pass), table, ops[0]).0, PlainNext(m, ops[0]), ops[1..]);
    }
  }

  /** In particular from the first open of an empty store, whose contents start as the empty map. */
  lemma NewStoreIsAMap(pass: Bytes, draws: Draws, ops: seq<Op>)
    requires draws.first.Some? && draws.second.Some?
    ensures CheckVerifier(Derive(pass), map[], draws, true, true).1 == Ok(())
    ensures Simulates(pass, CheckVerifier(Derive(pass), map[], draws, true, true).0, map[], ops)
  {
    FirstOpenKeys(pass, draws);
    SealedTableIsAMap(pass, CheckVerifier(Derive(pass), map[], draws, true, true).0, map[], ops);
  }

  // ---------------------------------------------------------------- openings

  /** What one opening may do, whatever rows and answers it meets. */
  lemma OpeningIsCautious(table: Table, row: MasterRow, at: Setting)
    ensures var o := OpenFromRow(table, row, at);
            && (o.asked == [] || o.asked == [false])
            && (o.result.Err? ==> o.table == table)
            && (o.table != table ==> VERIFIER_SLOT !in table && o.table - {VERIFIER_SLOT} == table)
  {
    var o := OpenFromRow(table, row, at);
    if o.table != table {
      assert (table[VERIFIER_SLOT := o.table[VERIFIER_SLOT]]) - {VERIFIER_SLOT} == table;
    }
  }

  /** A file this key opens: keyed by it, or new, with the nonces and the write a first open needs. */
  ghost predicate OpensWith(table: Table, key: Bytes, at: Setting, kind: CustodyKind) {
    && at.answers(kind)
    && (KeyedBy(key, table) || (VERIFIER_SLOT !in table && at.draws.first.Some? && at.draws.second.Some? && at.commits))
  }

  lemma OpensWithKey(table: Table, key: Bytes, at: Setting, asked: seq<bool>, kind: CustodyKind)
    requires OpensWith(table, key, at, kind)
    ensures var o := OpenWith(table, key, at, asked, kind);
            && o.result == Ok((key, kind)) && o.asked == asked && KeyedBy(key, o.table)
            && (KeyedBy(key, table) ==> o.table == table)
  {
  }

  /** What the library makes of the content master: 32 bytes decoded, 32 bytes derived from them. */
  ghost predicate Derives(lib: Library, master: Option<string>, key: Bytes) {
    && master.Some? && lib.decode(master.value).Some? && |lib.decode(master.value).value| == 32
    && lib.derive(lib.decode(master.value).value) == Some(key) && |key| == 32
  }

  /** A software row opens its file under the key derived from the content master, without a word to the hardware. */
  lemma SoftwareRowOpens(table: Table, row: MasterRow, at: Setting, key: Bytes)
    requires row.keyKind == "software" && Derives(at.lib, row.masterKey, key) && OpensWith(table, key, at, Software)
    ensures var o := OpenFromRow(table, row, at);
            o.result == Ok((key, Software)) && o.asked == [] && KeyedBy(key, o.table) && (KeyedBy(key, table) ==> o.table == table)
  {
    OpensWithKey(table, key, at, [], Software);
  }

  /** A hardware row opens its file under the hardware's key, and so does a software row whose file refuses the derived one. */
  lemma HardwareKeyOpens(table: Table, row: MasterRow, at: Setting, key: Bytes)
    requires at.hardware(false) == RootKey(key) && OpensWith(table, key, at, Hardware)
    requires row.keyKind == "hardware" || (row.keyKind == "software" && exists soft :: Derives(at.lib, row.masterKey, soft) && Refused(table, soft, at, Software))
    ensures var o := OpenFromRow(table, row, at);
            o.result == Ok((key, Hardware)) && o.asked == [false] && KeyedBy(key, o.table) && (KeyedBy(key, table) ==> o.table == table)
  {
    OpensWithKey(table, key, at, [false], Hardware);
    if row.keyKind == "software" {
      var soft :| Derives(at.lib, row.masterKey, soft) && Refused(table, soft, at, Software);
      VerifierDecides(table, soft, at, Software);
    }
  }

  /** What a row that yields no key is refused for; the file and the hardware are not touched. */
  lemma UnusableRowsRefused(table: Table, row: MasterRow, at: Setting)
    requires row.keyKind != "hardware" && !(row.keyKind == "software" && exists key :: Derives(at.lib, row.masterKey, key))
    ensures var o := OpenFromRow(table, row, at);
            && o.table == table && o.asked == []
            && o.result == Err(if row.keyKind == "software" && row.masterKey.Some? && at.lib.decode(row.masterKey.value).Some? &&
                                  |at.lib.decode(row.masterKey.value).value| == 32 then Crypto else InvalidArgument)
  {
    assert row.keyKind == "software" && SoftwareKey(at.lib, row.masterKey).Ok? ==>
        Derives(at.lib, row.masterKey, SoftwareKey(at.lib, row.masterKey).value);
  }

  /** Under a software row hardware is asked exactly when the store is in use and refuses the software key. */
  lemma SoftwareKeyFirst(table: Table, row: MasterRow, at: Setting)
    requires row.keyKind == "software"
    ensures var key := SoftwareKey(at.lib, row.masterKey);
            OpenFromRow(table, row, at).asked == [false] <==> key.Ok? && Refused(table, key.value, at, Software)
  {
  }

  /** The store is in use and the verifier does not open under this key. */
  ghost predicate RefusesKey(table: Table, key: Bytes) {
    VERIFIER_SLOT in table && |table[VERIFIER_SLOT].nonce| == NONCE_LEN && !KeyedBy(key, table)
  }

  /** The file was read and did so. */
  ghost predicate Refused(table: Table, key: Bytes, at: Setting, kind: CustodyKind) {
    at.answers(kind) && RefusesKey(table, key)
  }

  /**
   A refusal names its cause: hardware custody is unavailable when the hardware key was
   needed and could not be had though hardware may be there, and the passphrase is wrong
   when every key the store may hold was tried and refused.
   */
  lemma RefusalsNameTheirCause(table: Table, row: MasterRow, at: Setting)
    ensures var r, soft, root := OpenFromRow(table, row, at).result, SoftwareKey(at.lib, row.masterKey), at.hardware(false);
            && (r == Err(HardwareCustodyUnavailable) <==>
                  || (row.keyKind == "hardware" && !root.RootKey?)
                  || (row.keyKind == "software" && soft.Ok? && Refused(table, soft.value, at, Software) && root.Unreachable?))
            && (r == Err(WrongPassphrase) <==>
                  || (row.keyKind == "hardware" && root.RootKey? && Refused(table, root.key, at, Hardware))
                  || (row.keyKind == "software" && soft.Ok? && Refused(table, soft.value, at, Software) &&
                      (root.NotHardwareBacked? || (root.RootKey? && Refused(table, root.key, at, Hardware)))))
  {
    var soft, root := SoftwareKey(at.lib, row.masterKey), at.hardware(false);
    if soft.Ok? {
      VerifierDecides(table, soft.value, at, Software);
    }
    if root.RootKey? {
      VerifierDecides(table, root.key, at, Hardware);
    }
  }

  lemma VerifierDecides(table: Table, key: Bytes, at: Setting, kind: CustodyKind)
    ensures var (t, r) := CheckVerifier(Derive(key), table, at.draws, at.answers(kind), at.commits);
            && (r == Err(WrongPassphrase) <==> Refused(table, key, at, kind)) && r != Err(HardwareCustodyUnavailable)
            && (r == Err(WrongPassphrase) ==> t == table)
  {
  }

  /**
   Custody is what opened the store: the reported kind names the root of the key that
   passed the verifier, and is Hardware exactly when the hardware was asked.
   */
  lemma CustodyIsHonest(table: Table, row: MasterRow, at: Setting)
    requires OpenFromRow(table, row, at).result.Ok?
    ensures var o := OpenFromRow(table, row, at);
            var (key, kind) := o.result.value;
            && KeyedBy(key, o.table)
            && (kind == Hardware <==> o.asked == [false])
            && (kind == Hardware ==> at.hardware(false) == RootKey(key))
            && (kind == Software ==> SoftwareKey(at.lib, row.masterKey) == Ok(key))
            && (at.hardware(false).RootKey? && SoftwareKey(at.lib, row.masterKey) != Ok(at.hardware(false).key) ==>
                  (kind == Hardware <==> key == at.hardware(false).key))
  {
  }

  /** One event in the life of a file: an opening, or an operation of the session it gave. */
  datatype Life = Opening(row: MasterRow, at: Setting) | Using(op: Op)

  /** The rows, the session's passphrase if one is open, and every create flag the hardware was asked with. */
  datatype FileState = FileState(table: Table, session: Option<Bytes>, asked: seq<seq<bool>>, sealings: nat)

  ghost predicate Lives(f: FileState, e: Life) {
    e.Using? ==> f.session.Some? && Possible(Derive(f.session.value), f.table, e.op) && !e.op.ReopenOp?
  }

  ghost function Live(f: FileState, e: Life): FileState
    requires Lives(f, e)
  {
    match e
    case Opening(row, at) =>
      var o := OpenFromRow(f.table, row, at);
      FileState(o.table, if o.result.Ok? then Some(o.result.value.0) else None, f.asked + [o.asked],
                f.sealings + if VERIFIER_SLOT !in f.table && VERIFIER_SLOT in o.table then 1 else 0)
    case Using(op) => f.(table := Perform(Derive(f.session.value), f.table, op).0)
  }

  ghost function LiveAll(f: FileState, es: seq<Life>): Option<FileState>
    decreases |es|
  {
    if es == [] then Some(f) else if !Lives(f, es[0]) then None else LiveAll(Live(f, es[0]), es[1..])
  }

  ghost predicate AskedCautiously(asked: seq<seq<bool>>) {
    forall i :: 0 <= i < |asked| ==> asked[i] == [] || asked[i] == [false]
  }

  lemma OpsSpareVerifier(keys: Keys, table: Table, op: Op)
    requires Possible(keys, table, op) && !op.ReopenOp?
    ensures VERIFIER_SLOT in table <==> VERIFIER_SLOT in Perform(keys, table, op).0
    ensures VERIFIER_SLOT in table ==> Perform(keys, table, op).0[VERIFIER_SLOT] == table[VERIFIER_SLOT]
  {
  }

  /**
   Over any history of openings and operations, whatever the rows held at the start and
   whatever the hardware answered: a verifier once present is never changed, at most one
   is ever written, and no opening asks the hardware twice or asks it to create a seed.
   */
  lemma {:induction false} VerifierWrittenOnce(f: FileState, es: seq<Life>, f': FileState)
    requires LiveAll(f, es) == Some(f') && AskedCautiously(f.asked)
    ensures VERIFIER_SLOT in f.table ==> VERIFIER_SLOT in f'.table && f'.table[VERIFIER_SLOT] == f.table[VERIFIER_SLOT]
    ensures f'.sealings <= f.sealings + if VERIFIER_SLOT in f.table then 0 else 1
    ensures AskedCautiously(f'.asked)
    decreases |es|
  {
    if es != [] {
      match es[0] {
        case Opening(row, at) => OpeningIsCautious(f.table, row, at);
        case Using(op) => OpsSpareVerifier(Derive(f.session.value), f.table, op);
      }
      VerifierWrittenOnce(Live(f, es[0]), es[1..], f');
    }
  }

  /** At most one passphrase keys a table. */
  lemma OneKey(p: Bytes, q: Bytes, table: Table)
    requires KeyedBy(p, table) && KeyedBy(q, table)
    ensures p == q
  {
  }

  /** A file is either untouched or keyed by one passphrase, under which it holds the map `m`. */
  ghost predicate LifeInv(f: FileState, m: Plain, key: Option<Bytes>) {
    match key
    case None => f.table == map[] && f.session.None? && m == map[]
    case Some(k) =>
      KeyedBy(k, f.table) && Represents(Derive(k), f.table, m) && (f.session.Some? ==> f.session.value == k)
  }

  ghost function PlainLife(m: Plain, es: seq<Life>): Plain
    decreases |es|
  {
    if es == [] then m else PlainLife(if es[0].Using? then PlainNext(m, es[0].op) else m, es[1..])
  }

  lemma OpeningKeepsKey(f: FileState, m: Plain, key: Option<Bytes>, row: MasterRow, at: Setting) returns (key': Option<Bytes>)
    requires LifeInv(f, m, key)
    ensures LifeInv(Live(f, Opening(row, at)), m, key')
    ensures key.Some? ==> key' == key
  {
    var o := OpenFromRow(f.table, row, at);
    OpeningIsCautious(f.table, row, at);
    key' := key;
    if o.result.Ok? {
      CustodyIsHonest(f.table, row, at);
      if key.Some? {
        OneKey(key.value, o.result.value.0, f.table);
      } else {
        key' := Some(o.result.value.0);
        assert forall s <- o.table :: s == VERIFIER_SLOT || s in o.table - {VERIFIER_SLOT};
        assert forall s <- o.table :: SlotExplained(Derive(key'.value), m, s);
      }
    }
  }

  /**
   From an empty file, through any openings under any rows and hardware answers and any
   operations between them: one key is fixed by the first opening that succeeds, no other
   ever opens the file, and its contents are the plain map the operations describe.
   */
  lemma {:induction false} OneKeyForLife(f: FileState, m: Plain, key: Option<Bytes>, es: seq<Life>, f': FileState)
    returns (key': Option<Bytes>)
    requires LifeInv(f, m, key) && LiveAll(f, es) == Some(f')
    ensures LifeInv(f', PlainLife(m, es), key')
    ensures key.Some? ==> key' == key
    decreases |es|
  {
    if es == [] {
      key' := key;
    } else {
      var m', k := m, key;
      match es[0] {
        case Opening(row, at) => k := OpeningKeepsKey(f, m, key, row, at);
        case Using(op) =>
          m' := PlainNext(m, op);
          StepAgrees(f.session.value, f.table, m, op);
      }
      key' := OneKeyForLife(Live(f, es[0]), m', k, es[1..], f');
    }
  }
}
