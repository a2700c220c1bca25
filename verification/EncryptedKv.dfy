/**
 The encrypted key/value store (src/encrypted_kv.rs): rows addressed by blinded names
 and holding sealed values, a write-once verifier row, and the opener that picks the
 root an MLS-state store is keyed from. Key derivation, blinding and sealing are terms:
 injective, and opening succeeds exactly under the sealing key and nonce.
 */
module EncryptedKv {
  import opened Common

  newtype Byte = x: int | 0 <= x < 256
  type Bytes = seq<Byte>

  const NONCE_LEN: nat := 24
  const KEY_LEN: nat := 32

  function Ascii(s: string): Bytes
    requires forall c <- s :: c as int < 128
  {
    seq(|s|, i requires 0 <= i < |s| => assert s[i] in s; s[i] as int as Byte)
  }

  const VERIFIER_NS: Bytes := Ascii("__verifier__")
  const VERIFIER_PLAINTEXT: Bytes := Ascii("ciris-persist/encrypted-kv/verifier/v1")
  const VERIFIER_KEY: Bytes := Ascii("verifier")

  type Nonce = b: Bytes | |b| == 24 witness seq(24, _ => 0)

  // ---------------------------------------------------------------- symbolic cryptography

  datatype Salt = AppSalt | Keyed(key: Secret)
  datatype Info = RootInfo | BlindInfo | ValueInfo
  datatype Secret = Hkdf(ikm: Bytes, salt: Salt, info: Info)

  /** A blinded name: an HMAC, or one of the two fixed names of the verifier row. */
  datatype Blind = Mac(key: Secret, message: Bytes) | VerifierNsBlind | VerifierKeyBlind

  /** What a ciphertext column may hold: something sealed, or any other bytes. */
  datatype Ciphertext = Sealed(key: Secret, nonce: Bytes, plaintext: Bytes) | Noise(bytes: Bytes)

  function Unseal(key: Secret, nonce: Bytes, ct: Ciphertext): Option<Bytes> {
    if ct.Sealed? && ct.key == key && ct.nonce == nonce then Some(ct.plaintext) else None
  }

  // ---------------------------------------------------------------- names and rows

  datatype Keys = Keys(root: Secret, blind: Secret)

  function Derive(passphrase: Bytes): Keys {
    var root := Hkdf(passphrase, AppSalt, RootInfo);
    Keys(root, Hkdf([], Keyed(root), BlindInfo))
  }

  function ValueKey(keys: Keys, ns: Bytes): Secret {
    Hkdf(ns, Keyed(keys.root), ValueInfo)
  }

  function NsBlind(keys: Keys, ns: Bytes): Blind {
    Mac(keys.blind, ns)
  }

  /** The namespace and the key are hashed with nothing between them. */
  function KeyBlind(keys: Keys, ns: Bytes, key: Bytes): Blind {
    Mac(keys.blind, ns + key)
  }

  type Slot = (Blind, Blind)

  function SlotOf(keys: Keys, ns: Bytes, key: Bytes): Slot {
    (NsBlind(keys, ns), KeyBlind(keys, ns, key))
  }

  const VERIFIER_SLOT: Slot := (VerifierNsBlind, VerifierKeyBlind)

  datatype Row = Row(nonce: Bytes, valueCt: Ciphertext, keyNonce: Bytes, keyCt: Ciphertext)

  type Table = map<Slot, Row>

  datatype KvError = WrongPassphrase | AuthFailure | Crypto | Backend | InvalidArgument | HardwareCustodyUnavailable

  predicate BadNamespace(ns: Bytes) {
    ns == [] || ns == VERIFIER_NS
  }

  /** Two seals draw two nonces; the generator may fault at either. */
  datatype Draws = Draws(first: Option<Nonce>, second: Option<Nonce>)

  function SealRow(key: Secret, name: Bytes, value: Bytes, draws: Draws): Option<Row> {
    if draws.first.None? || draws.second.None? then None
    else
      var n, k := draws.first.value, draws.second.value;
      Some(Row(n, Sealed(key, n, value), k, Sealed(key, k, name)))
  }

  /** Opening one column: a nonce of the wrong length and a failed open are both refused. */
  function OpenColumn(key: Secret, nonce: Bytes, ct: Ciphertext): Result<Bytes, KvError> {
    if |nonce| != NONCE_LEN then Err(AuthFailure)
    else
      match Unseal(key, nonce, ct)
      case Some(pt) => Ok(pt)
      case None => Err(AuthFailure)
  }

  // ---------------------------------------------------------------- the operations on a table

  /** `answers` and `commits` say whether the database answers a query and takes a write. */
  function Fetch(keys: Keys, table: Table, ns: Bytes, key: Bytes, answers: bool): Result<Option<Bytes>, KvError> {
    if BadNamespace(ns) then Err(InvalidArgument)
    else if !answers then Err(Backend)
    else if SlotOf(keys, ns, key) !in table then Ok(None)
    else
      var row := table[SlotOf(keys, ns, key)];
      match OpenColumn(ValueKey(keys, ns), row.nonce, row.valueCt)
      case Ok(pt) => Ok(Some(pt))
      case Err(e) => Err(e)
  }

  function Upsert(keys: Keys, table: Table, ns: Bytes, key: Bytes, value: Bytes, draws: Draws, commits: bool)
    : (Table, Result<(), KvError>)
  {
    if BadNamespace(ns) then (table, Err(InvalidArgument))
    else
      match SealRow(ValueKey(keys, ns), key, value, draws)
      case None => (table, Err(Crypto))
      case Some(row) =>
        if commits then (table[SlotOf(keys, ns, key) := row], Ok(())) else (table, Err(Backend))
  }

  function Remove(keys: Keys, table: Table, ns: Bytes, key: Bytes, commits: bool): (Table, Result<(), KvError>) {
    if BadNamespace(ns) then (table, Err(InvalidArgument))
    else if commits then (table - {SlotOf(keys, ns, key)}, Ok(()))
    else (table, Err(Backend))
  }

  type Pair = (Bytes, Bytes)

  /** Open each row's key, keep the rows whose key has the prefix, open their values; stop at the first failure. */
  function ScanRows(key: Secret, rows: seq<Row>, prefix: Bytes): Result<seq<Pair>, KvError> {
    if rows == [] then Ok([])
    else
      match OpenColumn(key, rows[0].keyNonce, rows[0].keyCt)
      case Err(e) => Err(e)
      case Ok(name) =>
        if !(prefix <= name) then ScanRows(key, rows[1..], prefix)
        else
          match OpenColumn(key, rows[0].nonce, rows[0].valueCt)
          case Err(e) => Err(e)
          case Ok(value) =>
            match ScanRows(key, rows[1..], prefix)
            case Err(e) => Err(e)
            case Ok(rest) => Ok([(name, value)] + rest)
  }

  /** `order` lists the rows of one namespace, in whatever order the database returns them. */
  ghost predicate Enumerates(order: seq<Slot>, table: Table, nsBlind: Blind) {
    && (forall s :: s in order <==> s in table && s.0 == nsBlind)
    && (forall i, j :: 0 <= i < j < |order| ==> order[i] != order[j])
  }

  function RowsAt(table: Table, order: seq<Slot>): seq<Row>
    requires forall s <- order :: s in table
  {
    seq(|order|, i requires 0 <= i < |order| => assert order[i] in order; table[order[i]])
  }

  // ---------------------------------------------------------------- the verifier row

  /** Write the verifier on the first open, check it on every later one; `answers` is false when the file cannot be opened or read. */
  function CheckVerifier(keys: Keys, table: Table, draws: Draws, answers: bool, commits: bool): (Table, Result<(), KvError>) {
    var key := ValueKey(keys, VERIFIER_NS);
    if !answers then (table, Err(Backend))
    else if VERIFIER_SLOT !in table then
      match SealRow(key, VERIFIER_KEY, VERIFIER_PLAINTEXT, draws)
      case None => (table, Err(Crypto))
      case Some(row) => if commits then (table[VERIFIER_SLOT := row], Ok(())) else (table, Err(Backend))
    else
      var row := table[VERIFIER_SLOT];
      if |row.nonce| != NONCE_LEN then (table, Err(AuthFailure))
      else if Unseal(key, row.nonce, row.valueCt) == Some(VERIFIER_PLAINTEXT) then (table, Ok(()))
      else (table, Err(WrongPassphrase))
  }

  /** The key of this passphrase sealed the verifier. */
  ghost predicate KeyedBy(passphrase: Bytes, table: Table) {
    && VERIFIER_SLOT in table
    && var row := table[VERIFIER_SLOT];
       |row.nonce| == NONCE_LEN && row.valueCt == Sealed(ValueKey(Derive(passphrase), VERIFIER_NS), row.nonce, VERIFIER_PLAINTEXT)
  }

  // ---------------------------------------------------------------- the MLS-state opener

  datatype HardwareRoot = RootKey(key: Bytes) | NotHardwareBacked | Unreachable

  datatype CustodyKind = Hardware | Software

  /** The persisted content-master row, and the two library calls its software arm makes. */
  datatype MasterRow = MasterRow(keyKind: string, masterKey: Option<string>)
  datatype Library = Library(decode: string -> Option<Bytes>, derive: Bytes -> Option<Bytes>)

  function SoftwareKey(lib: Library, master: Option<string>): Result<Bytes, KvError> {
    if master.None? then Err(InvalidArgument)
    else
      match lib.decode(master.value)
      case None => Err(InvalidArgument)
      case Some(raw) =>
        if |raw| != KEY_LEN then Err(InvalidArgument)
        else
          match lib.derive(raw)
          case None => Err(Crypto)
          case Some(key) => if |key| != KEY_LEN then Err(Crypto) else Ok(key)
  }

  datatype Opened = Opened(table: Table, asked: seq<bool>, result: Result<(Bytes, CustodyKind), KvError>)

  /** Everything an opening meets outside the file; it may connect once for each root, and either time in vain. */
  datatype Setting = Setting(lib: Library, hardware: bool -> HardwareRoot, draws: Draws, answers: CustodyKind -> bool, commits: bool)

  function OpenWith(table: Table, key: Bytes, at: Setting, asked: seq<bool>, kind: CustodyKind): Opened {
    var (t, r) := CheckVerifier(Derive(key), table, at.draws, at.answers(kind), at.commits);
    match r
    case Ok(_) => Opened(t, asked, Ok((key, kind)))
    case Err(e) => Opened(t, asked, Err(e))
  }

  /** `asked` records the create flag of every question put to the hardware. */
  function OpenFromRow(table: Table, row: MasterRow, at: Setting): Opened {
    if row.keyKind == "hardware" then
      match at.hardware(false)
      case RootKey(key) => OpenWith(table, key, at, [false], Hardware)
      case _ => Opened(table, [false], Err(HardwareCustodyUnavailable))
    else if row.keyKind == "software" then
      match SoftwareKey(at.lib, row.masterKey)
      case Err(e) => Opened(table, [], Err(e))
      case Ok(key) =>
        var first := OpenWith(table, key, at, [], Software);
        if first.result != Err(WrongPassphrase) then first
        else
          match at.hardware(false)
          case RootKey(legacy) => OpenWith(first.table, legacy, at, [false], Hardware)
          case NotHardwareBacked => Opened(first.table, [false], Err(WrongPassphrase))
          case Unreachable => Opened(first.table, [false], Err(HardwareCustodyUnavailable))
    else Opened(table, [], Err(InvalidArgument))
  }

  // ---------------------------------------------------------------- the store as the code runs it

  class XChaChaKvStore {
    var table: Table
    const keys: Keys

    /** The table as the connection holds it, before the verifier has been looked at. */
    constructor (rows: Table, passphrase: Bytes)
      ensures table == rows && keys == Derive(passphrase)
    {
      table := rows;
      keys := Derive(passphrase);
    }

    method VerifyPassphrase(draws: Draws, answers: bool, commits: bool) returns (r: Result<(), KvError>)
      modifies this
      ensures (table, r) == CheckVerifier(keys, old(table), draws, answers, commits)
    {
      var key := ValueKey(keys, VERIFIER_NS);
      if !answers {
        return Err(Backend);
      }
      if VERIFIER_SLOT !in table {
        if draws.first.None? {
          return Err(Crypto);
        }
        var valueCt := Sealed(key, draws.first.value, VERIFIER_PLAINTEXT);
        if draws.second.None? {
          return Err(Crypto);
        }
        var keyCt := Sealed(key, draws.second.value, VERIFIER_KEY);
        if !commits {
          return Err(Backend);
        }
        table := table[VERIFIER_SLOT := Row(draws.first.value, valueCt, draws.second.value, keyCt)];
        return Ok(());
      }
      var existing := table[VERIFIER_SLOT];
      if |existing.nonce| != NONCE_LEN {
        return Err(AuthFailure);
      }
      var outcome := Unseal(key, existing.nonce, existing.valueCt);
      if outcome.None? || outcome.value != VERIFIER_PLAINTEXT {
        return Err(WrongPassphrase);
      }
      return Ok(());
    }

    method Get(ns: Bytes, key: Bytes, answers: bool) returns (r: Result<Option<Bytes>, KvError>)
      ensures r == Fetch(keys, table, ns, key, answers)
    {
      if BadNamespace(ns) {
        return Err(InvalidArgument);
      }
      if !answers {
        return Err(Backend);
      }
      var slot := SlotOf(keys, ns, key);
      if slot !in table {
        return Ok(None);
      }
      var pt := OpenColumn(ValueKey(keys, ns), table[slot].nonce, table[slot].valueCt);
      if pt.Err? {
        return Err(pt.error);
      }
      return Ok(Some(pt.value));
    }

    method Put(ns: Bytes, key: Bytes, value: Bytes, draws: Draws, commits: bool) returns (r: Result<(), KvError>)
      modifies this
      ensures (table, r) == Upsert(keys, old(table), ns, key, value, draws, commits)
    {
      if BadNamespace(ns) {
        return Err(InvalidArgument);
      }
      var row := SealRow(ValueKey(keys, ns), key, value, draws);
      if row.None? {
        return Err(Crypto);
      }
      if !commits {
        return Err(Backend);
      }
      table := table[SlotOf(keys, ns, key) := row.value];
      return Ok(());
    }

    method Delete(ns: Bytes, key: Bytes, commits: bool) returns (r: Result<(), KvError>)
      modifies this
      ensures (table, r) == Remove(keys, old(table), ns, key, commits)
    {
      if BadNamespace(ns) {
        return Err(InvalidArgument);
      }
      if !commits {
        return Err(Backend);
      }
      table := table - {SlotOf(keys, ns, key)};
      return Ok(());
    }

    /** Fetch the namespace's rows as they come, then open and filter them one by one. */
    method Scan(ns: Bytes, prefix: Bytes, answers: bool) returns (r: Result<seq<Pair>, KvError>, ghost order: seq<Slot>)
      ensures BadNamespace(ns) ==> r == Err(InvalidArgument)
      ensures !BadNamespace(ns) && !answers ==> r == Err(Backend)
      ensures !BadNamespace(ns) && answers ==> Enumerates(order, table, NsBlind(keys, ns))
      ensures !BadNamespace(ns) && answers ==> r == ScanRows(ValueKey(keys, ns), RowsAt(table, order), prefix)
    {
      order := [];
      if BadNamespace(ns) {
        return Err(InvalidArgument), [];
      }
      if !answers {
        return Err(Backend), [];
      }
      var rows;
      rows, order := FetchNamespace(NsBlind(keys, ns));
      r := OpenAndFilter(ValueKey(keys, ns), rows, prefix);
    }

    method FetchNamespace(nsBlind: Blind) returns (rows: seq<Row>, ghost order: seq<Slot>)
      ensures Enumerates(order, table, nsBlind) && rows == RowsAt(table, order)
    {
      rows, order := [], [];
      var left := set s <- table | s.0 == nsBlind;
      while left != {}
        invariant forall s :: (s in order || s in left) <==> s in table && s.0 == nsBlind
        invariant forall s :: !(s in order && s in left)
        invariant forall i, j :: 0 <= i < j < |order| ==> order[i] != order[j]
        invariant forall s <- order :: s in table
        invariant rows == RowsAt(table, order)
        decreases |left|
      {
        var s :| s in left;
        left := left - {s};
        assert forall i :: 0 <= i < |order| ==> order[i] in order;
        rows, order := rows + [table[s]], order + [s];
      }
    }

    static method OpenAndFilter(key: Secret, rows: seq<Row>, prefix: Bytes) returns (r: Result<seq<Pair>, KvError>)
      ensures r == ScanRows(key, rows, prefix)
    {
      var found: seq<Pair> := [];
      var i := 0;
      assert rows[0..] == rows;
      PrefixedEnds([], ScanRows(key, rows, prefix));
      while i < |rows|
        invariant 0 <= i <= |rows|
        invariant ScanRows(key, rows, prefix) == Prefixed(found, ScanRows(key, rows[i..], prefix))
      {
        assert rows[i..][1..] == rows[i + 1..];
        var name := OpenColumn(key, rows[i].keyNonce, rows[i].keyCt);
        if name.Err? {
          return Err(name.error);
        }
        if prefix <= name.value {
          var value := OpenColumn(key, rows[i].nonce, rows[i].valueCt);
          if value.Err? {
            return Err(value.error);
          }
          var pair := (name.value, value.value);
          PrefixedStep(found, pair, ScanRows(key, rows[i + 1..], prefix));
          found := found + [pair];
        }
        i := i + 1;
      }
      PrefixedEnds(found, ScanRows(key, rows[i..], prefix));
      return Ok(found);
    }
  }

  function Prefixed(found: seq<Pair>, rest: Result<seq<Pair>, KvError>): Result<seq<Pair>, KvError> {
    match rest
    case Ok(more) => Ok(found + more)
    case Err(e) => Err(e)
  }

  lemma PrefixedEnds(found: seq<Pair>, rest: Result<seq<Pair>, KvError>)
    ensures Prefixed([], rest) == rest && Prefixed(found, Ok([])) == Ok(found)
  {
    assert rest.Ok? ==> [] + rest.value == rest.value;
    assert found + [] == found;
  }

  lemma PrefixedStep(found: seq<Pair>, p: Pair, rest: Result<seq<Pair>, KvError>)
    ensures Prefixed(found, Prefixed([p], rest)) == Prefixed(found + [p], rest)
  {
    if rest.Ok? {
      assert found + ([p] + rest.value) == found + [p] + rest.value;
    }
  }

  /** The file an MLS-state store lives in, and the questions put to the hardware so far. */
  class KvFile {
    var table: Table
    var asked: seq<bool>

    constructor (rows: Table)
      ensures table == rows && asked == []
    {
      table, asked := rows, [];
    }

    method AskHardware(create: bool, at: Setting) returns (r: HardwareRoot)
      modifies this`asked
      ensures asked == old(asked) + [create] && r == at.hardware(create)
    {
      asked := asked + [create];
      r := at.hardware(create);
    }

    method OpenRooted(key: Bytes, kind: CustodyKind, at: Setting) returns (r: Result<(), KvError>)
      modifies this`table
      ensures (table, r) == CheckVerifier(Derive(key), old(table), at.draws, at.answers(kind), at.commits)
    {
      var store := new XChaChaKvStore(table, key);
      r := store.VerifyPassphrase(at.draws, at.answers(kind), at.commits);
      table := store.table;
    }

    /** `open_mls_state_from_row`: the row's root decides the key; hardware is a fallback under a software row. */
    method OpenMlsStateFromRow(row: MasterRow, at: Setting) returns (r: Result<(Bytes, CustodyKind), KvError>)
      modifies this
      ensures var o := OpenFromRow(old(table), row, at);
              r == o.result && table == o.table && asked == old(asked) + o.asked
    {
      if row.keyKind == "hardware" {
        var root := AskHardware(false, at);
        if !root.RootKey? {
          return Err(HardwareCustodyUnavailable);
        }
        var outcome := OpenRooted(root.key, Hardware, at);
        if outcome.Err? {
          return Err(outcome.error);
        }
        return Ok((root.key, Hardware));
      }
      if row.keyKind == "software" {
        var key := SoftwareKey(at.lib, row.masterKey);
        if key.Err? {
          return Err(key.error);
        }
        var outcome := OpenRooted(key.value, Software, at);
        if outcome.Ok? {
          return Ok((key.value, Software));
        }
        if outcome.error != WrongPassphrase {
          return Err(outcome.error);
        }
        var root := AskHardware(false, at);
        match root {
          case NotHardwareBacked => return Err(WrongPassphrase);
          case Unreachable => return Err(HardwareCustodyUnavailable);
          case RootKey(legacy) =>
            outcome := OpenRooted(legacy, Hardware, at);
            if outcome.Err? {
              return Err(outcome.error);
            }
            return Ok((legacy, Hardware));
        }
      }
      return Err(InvalidArgument);
    }
  }
}
