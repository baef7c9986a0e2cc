/** The SQLite log: a table ordered by sequence, two cached values, and why it behaves like
    the in-memory log over any run of operations, reopening included. */
module SqliteLog {
  import opened Wrappers
  import opened Receipts
  import opened Crypto
  import opened Leaf
  import opened Utf8
  import opened Log
  import opened MemoryLog

  /** A stored body: JSON that decodes to a receipt, or bytes that do not. */
  datatype Blob = Decodes(receipt: Receipt) | Garbage

  datatype Row = Row(sequence: int, contentId: Digest, issuer: PublicKey, body: Blob)

  /** The database file: metadata blobs, and the rows in primary-key order. */
  datatype Database = Database(schema: Option<seq<byte>>, format: Option<seq<byte>>, issuer: Option<seq<byte>>, rows: seq<Row>)

  datatype SqlState = SqlState(db: Database, issuer: PublicKey, cachedLen: nat, cachedLeaf: Option<Digest>)

  datatype OpenError =
    | BadMetaLength(key: string)
    | UnsupportedSchema(foundSchema: u32)
    | UnsupportedFormat(foundFormat: u32)
    | PinnedToOther(pinned: PublicKey, got: PublicKey)
    | UndecodableRow

  const SCHEMA_VERSION: u32 := 1
  const I64_LIMIT: int := 0x8000_0000_0000_0000

  function FreshDatabase(): Database { Database(None, None, None, []) }

  // ---------- statements ----------

  datatype ConstraintError = PrimaryKeyViolation | UniqueViolation

  function InsertError(rows: seq<Row>, row: Row): Option<ConstraintError>
  {
    if exists i :: 0 <= i < |rows| && rows[i].sequence == row.sequence then Some(PrimaryKeyViolation)
    else if exists i :: 0 <= i < |rows| && rows[i].contentId == row.contentId then Some(UniqueViolation)
    else None
  }

  /** The row takes its place in key order. */
  function Inserted(rows: seq<Row>, row: Row): seq<Row>
  {
    if rows == [] || row.sequence < rows[0].sequence then [row] + rows else [rows[0]] + Inserted(rows[1..], row)
  }

  function SelectById(rows: seq<Row>, id: Digest): Option<Row>
  {
    if rows == [] then None else if rows[0].contentId == id then Some(rows[0]) else SelectById(rows[1..], id)
  }

  function SelectBySequence(rows: seq<Row>, n: int): Option<Row>
  {
    if rows == [] then None else if rows[0].sequence == n then Some(rows[0]) else SelectBySequence(rows[1..], n)
  }

  function Decoded(row: Option<Row>): Option<Receipt>
  {
    if row.Some? && row.value.body.Decodes? then Some(row.value.body.receipt) else None
  }

  // ---------- operations ----------

  /** The number four stored bytes stand for, least significant first. */
  function LeValue(b: seq<byte>): u32
    requires |b| == 4
  {
    var b0: int, b1: int, b2: int, b3: int := b[0], b[1], b[2], b[3];
    b0 + 0x100 * b1 + 0x1_0000 * b2 + 0x100_0000 * b3
  }

  lemma LeValueOf(n: u32)
    ensures LeValue(LeBytes(n, 4)) == n
  {
    var n1 := n / 256;
    var n2 := n1 / 256;
    var n3 := n2 / 256;
    assert LeBytes(n3, 1) == [n3 % 256];
    assert LeBytes(n2, 2) == [n2 % 256] + LeBytes(n3, 1);
    assert LeBytes(n1, 3) == [n1 % 256] + LeBytes(n2, 2);
    assert LeBytes(n, 4) == [n % 256, n1 % 256, n2 % 256, n3];
  }

  datatype MetaCheck = Absent | Agrees | WrongLength | Differs(found: u32)

  function CheckMeta(stored: Option<seq<byte>>, expected: u32): MetaCheck
  {
    match stored
    case None => Absent
    case Some(b) => if |b| != 4 then WrongLength else if LeValue(b) != expected then Differs(LeValue(b)) else Agrees
  }

  /** The file with the entry pinned, if it was absent; or why opening stops. */
  function PinSchema(db: Database): (Database, Option<OpenError>)
  {
    match CheckMeta(db.schema, SCHEMA_VERSION)
    case Absent => (db.(schema := Some(LeBytes(SCHEMA_VERSION, 4))), None)
    case Agrees => (db, None)
    case WrongLength => (db, Some(BadMetaLength("schema_version")))
    case Differs(found) => (db, Some(UnsupportedSchema(found)))
  }

  function PinFormat(db: Database): (Database, Option<OpenError>)
  {
    match CheckMeta(db.format, RECEIPT_FORMAT_VERSION)
    case Absent => (db.(format := Some(LeBytes(RECEIPT_FORMAT_VERSION, 4))), None)
    case Agrees => (db, None)
    case WrongLength => (db, Some(BadMetaLength("format_version")))
    case Differs(found) => (db, Some(UnsupportedFormat(found)))
  }

  function PinIssuer(db: Database, issuer: PublicKey): (Database, Option<OpenError>)
  {
    match db.issuer
    case None => (db.(issuer := Some(issuer)), None)
    case Some(b) =>
      if |b| != 32 then (db, Some(BadMetaLength("issuer")))
      else if b != issuer then (db, Some(PinnedToOther(b, issuer)))
      else (db, None)
  }

  /** Opening pins or checks the metadata entries in turn and rebuilds both caches from the
      table.  An attempt that fails leaves the entries it had already pinned. */
  function Opened(file: Database, issuer: PublicKey): (Database, Result<SqlState, OpenError>)
  {
    var (db1, e1) := PinSchema(file);
    if e1.Some? then (db1, Err(e1.value))
    else
      var (db2, e2) := PinFormat(db1);
      if e2.Some? then (db2, Err(e2.value))
      else
        var (db3, e3) := PinIssuer(db2, issuer);
        if e3.Some? then (db3, Err(e3.value)) else (db3, Cached(db3, issuer))
  }

  function Cached(db: Database, issuer: PublicKey): Result<SqlState, OpenError>
  {
    if |db.rows| == 0 then Ok(SqlState(db, issuer, 0, None))
    else
      match db.rows[|db.rows| - 1].body
      case Garbage => Err(UndecodableRow)
      case Decodes(r) => Ok(SqlState(db, issuer, |db.rows|, Some(LeafOf(r))))
  }

  /** Opening, successful or not, keeps every row and every metadata entry there was. */
  lemma OpeningKeepsFile(file: Database, issuer: PublicKey)
    ensures var db := Opened(file, issuer).0;
      && db.rows == file.rows
      && (file.schema.Some? ==> db.schema == file.schema)
      && (file.format.Some? ==> db.format == file.format)
      && (file.issuer.Some? ==> db.issuer == file.issuer)
  {
  }

  /** Four bytes as a number, the least significant first. */
  predicate SpellsLe(b: seq<byte>, n: nat)
  {
    |b| == 4 && n == b[0] as int + 256 * (b[1] as int + 256 * (b[2] as int + 256 * (b[3] as int)))
  }

  /** Why opening fails: the first entry, in the order schema, format, issuer, that has the wrong
      length or another value; or else a last row that does not decode. */
  lemma OpeningFailsWhy(file: Database, pin: PublicKey)
    ensures var e := Opened(file, pin).1;
      var badSchema := file.schema.Some? && file.schema.value != [1, 0, 0, 0];
      var badFormat := file.format.Some? && file.format.value != [2, 0, 0, 0];
      var badIssuer := file.issuer.Some? && file.issuer.value != pin;
      var badRow := |file.rows| > 0 && file.rows[|file.rows| - 1].body.Garbage?;
      && (e == Err(BadMetaLength("schema_version")) <==> badSchema && |file.schema.value| != 4)
      && (forall n: u32 :: e == Err(UnsupportedSchema(n)) <==> badSchema && SpellsLe(file.schema.value, n))
      && (e == Err(BadMetaLength("format_version")) <==> !badSchema && badFormat && |file.format.value| != 4)
      && (forall n: u32 :: e == Err(UnsupportedFormat(n)) <==> !badSchema && badFormat && SpellsLe(file.format.value, n))
      && (e == Err(BadMetaLength("issuer")) <==> !badSchema && !badFormat && badIssuer && |file.issuer.value| != 32)
      && (forall k :: e == Err(PinnedToOther(k, pin)) <==> !badSchema && !badFormat && badIssuer && file.issuer.value == k)
      && (e == Err(UndecodableRow) <==> !badSchema && !badFormat && !badIssuer && badRow)
      && (e.Ok? <==> !badSchema && !badFormat && !badIssuer && !badRow)
  {
    MetaWhy(file.schema, 1);
    MetaWhy(file.format, 2);
    assert "schema_version"[0] != "format_version"[0] && "issuer"[0] == 'i';
  }

  lemma MetaWhy(stored: Option<seq<byte>>, expected: u32)
    requires expected < 256
    ensures CheckMeta(stored, expected) == Absent <==> stored.None?
    ensures CheckMeta(stored, expected) == Agrees <==> stored == Some([expected, 0, 0, 0])
    ensures CheckMeta(stored, expected) == WrongLength <==> stored.Some? && |stored.value| != 4
    ensures forall n: u32 :: CheckMeta(stored, expected) == Differs(n) <==>
      stored.Some? && stored.value != [expected, 0, 0, 0] && SpellsLe(stored.value, n)
  {
    if stored.Some? && |stored.value| == 4 {
      var b := stored.value;
      assert b == [b[0], b[1], b[2], b[3]];
    }
  }

  predicate PinnedTo(db: Database, issuer: PublicKey)
  {
    CheckMeta(db.schema, SCHEMA_VERSION).Agrees? && CheckMeta(db.format, RECEIPT_FORMAT_VERSION).Agrees? && db.issuer == Some(issuer)
  }

  /** A file once opened is pinned: later attempts change nothing in it, and succeed exactly
      under the same issuer, as long as its last row decodes. */
  lemma OpenedIsPinned(file: Database, issuer: PublicKey, other: PublicKey)
    requires Opened(file, issuer).1.Ok?
    ensures var db := Opened(file, issuer).0;
      && PinnedTo(db, issuer) && Opened(db, other).0 == db
      && Opened(db, other).1 == (if other == issuer then Opened(file, issuer).1 else Err(PinnedToOther(issuer, other)))
  {
    LeValueOf(SCHEMA_VERSION);
    LeValueOf(RECEIPT_FORMAT_VERSION);
  }

  function CachedHead(s: SqlState): Digest { if s.cachedLeaf.Some? then s.cachedLeaf.value else ZERO }

  function SqlAppendCheck(c: Crypto, s: SqlState, r: Receipt): Option<AppendError>
  {
    if r.version != RECEIPT_FORMAT_VERSION then Some(UnsupportedVersion(r.version, RECEIPT_FORMAT_VERSION))
    else if r.issuer != s.issuer then Some(IssuerMismatch(s.issuer, r.issuer))
    else if Seq(r) != s.cachedLen then Some(OutOfOrder(s.cachedLen, Seq(r)))
    else if Prev(r) != CachedHead(s) then Some(ChainBroken(CachedHead(s), Prev(r)))
    else if !c.verify(r) then Some(SignatureInvalid)
    else if Seq(r) >= I64_LIMIT then Some(OutOfOrder(s.cachedLen, Seq(r)))
    else
      match InsertError(s.db.rows, RowOf(c, r))
      case None => None
      case Some(UniqueViolation) => Some(DuplicateId(ContentId(c, r)))
      case Some(PrimaryKeyViolation) => Some(SignatureInvalid)
  }

  /** What the insert makes of a receipt that passed every other check, whatever the table holds:
      refused as out of order from number 2^63 on, and below that by the key constraint and then
      by the unique one. */
  lemma InsertRefusedWhy(c: Crypto, s: SqlState, r: Receipt)
    requires r.version == 2 && r.issuer == s.issuer && Seq(r) == s.cachedLen && c.verify(r)
    requires Prev(r) == match s.cachedLeaf case None => ZERO case Some(leaf) => leaf
    ensures var e, n := SqlAppendCheck(c, s, r), r.body.merkleLeaf.sequence;
      var large := n >= 0x8000_0000_0000_0000;
      var taken := exists row :: row in s.db.rows && row.sequence == n;
      var known := exists row :: row in s.db.rows && row.contentId == c.contentId(r.body);
      && (e == Some(OutOfOrder(s.cachedLen, n)) <==> large) && (e == Some(SignatureInvalid) <==> !large && taken)
      && (e == Some(DuplicateId(c.contentId(r.body))) <==> !large && !taken && known)
      && (e == None <==> !large && !taken && !known)
      && (e == None ==> SqlAppend(c, s, r).cachedLen == s.cachedLen + 1 && SqlAppend(c, s, r).cachedLeaf == Some(LeafOf(r)))
      && (e != None ==> SqlAppend(c, s, r) == s)
  {
  }

  function RowOf(c: Crypto, r: Receipt): Row { Row(Seq(r), ContentId(c, r), r.issuer, Decodes(r)) }

  /** The caches move only after a successful insert. */
  function SqlAppend(c: Crypto, s: SqlState, r: Receipt): SqlState
  {
    if SqlAppendCheck(c, s, r).Some? then s
    else s.(db := s.db.(rows := Inserted(s.db.rows, RowOf(c, r))), cachedLen := s.cachedLen + 1, cachedLeaf := Some(LeafOf(r)))
  }

  function SqlLast(s: SqlState): Option<Receipt>
  {
    if s.cachedLen == 0 || |s.db.rows| == 0 then None else Decoded(Some(s.db.rows[|s.db.rows| - 1]))
  }

  function SqlGetById(s: SqlState, id: Digest): Option<Receipt> { Decoded(SelectById(s.db.rows, id)) }

  function SqlGetBySequence(s: SqlState, n: u64): Option<Receipt>
  {
    if n >= I64_LIMIT then None else Decoded(SelectBySequence(s.db.rows, n))
  }

  // ---------- both logs as machines over one interface ----------

  datatype Op = Append(receipt: Receipt) | GetById(id: Digest) | GetBySequence(sequence: u64) | Last | Length | Reopen

  datatype Reply = Appended(check: Check<AppendError>) | Found(receipt: Option<Receipt>) | Count(n: nat) | Reopened(ok: bool)

  function Verdict(e: Option<AppendError>): Check<AppendError>
  {
    match e
    case None => Pass
    case Some(x) => Fail(x)
  }

  function MemStep(c: Crypto, issuer: PublicKey, m: MemState, op: Op): (MemState, Reply)
  {
    match op
    case Append(r) => (MemAppend(c, issuer, m, r), Appended(Verdict(AppendCheck(c, issuer, m.receipts, r))))
    case GetById(id) => (m, Found(MemGetById(m, id)))
    case GetBySequence(n) => (m, Found(if n < |m.receipts| then Some(m.receipts[n]) else None))
    case Last => (m, Found(if |m.receipts| == 0 then None else Some(m.receipts[|m.receipts| - 1])))
    case Length => (m, Count(|m.receipts|))
    case Reopen => (m, Reopened(true))
  }

  function SqlStep(c: Crypto, s: SqlState, op: Op): (SqlState, Reply)
  {
    match op
    case Append(r) => (SqlAppend(c, s, r), Appended(Verdict(SqlAppendCheck(c, s, r))))
    case GetById(id) => (s, Found(SqlGetById(s, id)))
    case GetBySequence(n) => (s, Found(SqlGetBySequence(s, n)))
    case Last => (s, Found(SqlLast(s)))
    case Length => (s, Count(s.cachedLen))
    case Reopen =>
      var (db, reopened) := Opened(s.db, s.issuer);
      match reopened {
        case Ok(s') => (s', Reopened(true))
        case Err(_) => (s.(db := db), Reopened(false))
      }
  }

  /** The table holds exactly the receipts, in order, and the caches say what it implies. */
  predicate Refines(c: Crypto, s: SqlState, receipts: seq<Receipt>)
  {
    PinnedTo(s.db, s.issuer) &&
    |s.db.rows| == |receipts| &&
    (forall i :: 0 <= i < |receipts| ==> RowHolds(c, s.db.rows[i], receipts[i], i)) &&
    s.cachedLen == |receipts| &&
    s.cachedLeaf == (if |receipts| == 0 then None else Some(LeafOf(receipts[|receipts| - 1])))
  }

  predicate RowHolds(c: Crypto, row: Row, r: Receipt, i: int)
  {
    row == Row(i, ContentId(c, r), r.issuer, Decodes(r)) && Seq(r) == i
  }

  lemma {:induction false} InsertedLast(rows: seq<Row>, row: Row)
    requires forall i :: 0 <= i < |rows| ==> rows[i].sequence <= row.sequence
    ensures Inserted(rows, row) == rows + [row]
  {
    if rows != [] {
      InsertedLast(rows[1..], row);
    }
  }

  lemma {:induction false} SelectByIdFinds(rows: seq<Row>, i: nat)
    requires i < |rows| && forall j :: 0 <= j < i ==> rows[j].contentId != rows[i].contentId
    ensures SelectById(rows, rows[i].contentId) == Some(rows[i])
  {
    if i > 0 {
      SelectByIdFinds(rows[1..], i - 1);
    }
  }

  lemma {:induction false} SelectByIdMisses(rows: seq<Row>, id: Digest)
    requires forall j :: 0 <= j < |rows| ==> rows[j].contentId != id
    ensures SelectById(rows, id) == None
  {
    if rows != [] {
      SelectByIdMisses(rows[1..], id);
    }
  }

  lemma {:induction false} SelectBySequenceIs(rows: seq<Row>, n: int, base: int)
    requires forall j :: 0 <= j < |rows| ==> rows[j].sequence == base + j
    ensures SelectBySequence(rows, n) == if base <= n < base + |rows| then Some(rows[n - base]) else None
  {
    if rows != [] {
      SelectBySequenceIs(rows[1..], n, base + 1);
    }
  }

  lemma CheckRefines(c: Crypto, s: SqlState, rs: seq<Receipt>, r: Receipt)
    requires Refines(c, s, rs) && |rs| < I64_LIMIT
    ensures SqlAppendCheck(c, s, r) == AppendCheck(c, s.issuer, rs, r)
  {
    assert CachedHead(s) == Head(rs);
    if Seq(r) == |rs| {
      DuplicateRowIff(c, s, rs, r);
    }
  }

  lemma RowsExtended(c: Crypto, rows: seq<Row>, rs: seq<Receipt>, r: Receipt)
    requires |rows| == |rs| == Seq(r) && forall i :: 0 <= i < |rs| ==> RowHolds(c, rows[i], rs[i], i)
    ensures Inserted(rows, RowOf(c, r)) == rows + [RowOf(c, r)]
    ensures forall i :: 0 <= i < |rs| + 1 ==> RowHolds(c, (rows + [RowOf(c, r)])[i], (rs + [r])[i], i)
  {
    forall i | 0 <= i < |rows| ensures rows[i].sequence <= Seq(r) {
      assert RowHolds(c, rows[i], rs[i], i);
    }
    InsertedLast(rows, RowOf(c, r));
  }

  /** Appending: same verdict, same error, same contents. */
  lemma AppendRefines(c: Crypto, s: SqlState, rs: seq<Receipt>, r: Receipt)
    requires Refines(c, s, rs) && |rs| < I64_LIMIT
    ensures SqlAppendCheck(c, s, r) == AppendCheck(c, s.issuer, rs, r)
    ensures Refines(c, SqlAppend(c, s, r), if AppendCheck(c, s.issuer, rs, r).None? then rs + [r] else rs)
  {
    CheckRefines(c, s, rs, r);
    if AppendCheck(c, s.issuer, rs, r).None? {
      RowsExtended(c, s.db.rows, rs, r);
    }
  }

  lemma DuplicateRowIff(c: Crypto, s: SqlState, rs: seq<Receipt>, r: Receipt)
    requires Refines(c, s, rs) && Seq(r) == |rs|
    ensures InsertError(s.db.rows, RowOf(c, r)) == if HasId(c, rs, ContentId(c, r)) then Some(UniqueViolation) else None
  {
    var rows := s.db.rows;
    assert forall i :: 0 <= i < |rs| ==> RowHolds(c, rows[i], rs[i], i);
    if HasId(c, rs, ContentId(c, r)) {
      var i :| 0 <= i < |rs| && ContentId(c, rs[i]) == ContentId(c, r);
      assert rows[i].contentId == ContentId(c, r);
    }
  }

  /** Lookups: the same answers as the index and the vector give. */
  lemma LookupByIdRefines(c: Crypto, s: SqlState, m: MemState, id: Digest)
    requires Refines(c, s, m.receipts) && Indexed(c, m)
    ensures SqlGetById(s, id) == MemGetById(m, id)
  {
    var rows, rs := s.db.rows, m.receipts;
    assert forall i :: 0 <= i < |rs| ==> RowHolds(c, rows[i], rs[i], i);
    if id in m.byId {
      var i := m.byId[id];
      forall j | 0 <= j < i ensures rows[j].contentId != rows[i].contentId {
        assert ContentId(c, rs[j]) != ContentId(c, rs[i]);
      }
      SelectByIdFinds(rows, i);
    } else {
      forall j | 0 <= j < |rows| ensures rows[j].contentId != id {
        assert ContentId(c, rs[j]) in m.byId;
      }
      SelectByIdMisses(rows, id);
    }
  }

  lemma LookupBySequenceRefines(c: Crypto, s: SqlState, rs: seq<Receipt>, n: u64)
    requires Refines(c, s, rs) && |rs| < I64_LIMIT
    ensures SqlGetBySequence(s, n) == if n < |rs| then Some(rs[n]) else None
    ensures SqlLast(s) == if |rs| == 0 then None else Some(rs[|rs| - 1])
  {
    assert forall i :: 0 <= i < |rs| ==> RowHolds(c, s.db.rows[i], rs[i], i);
    SelectBySequenceIs(s.db.rows, n, 0);
  }

  /** Closing and reopening changes nothing: the rebuilt caches are the ones held before. */
  lemma ReopenRefines(c: Crypto, s: SqlState, rs: seq<Receipt>)
    requires Refines(c, s, rs)
    ensures Opened(s.db, s.issuer) == (s.db, Ok(s))
  {
    if |rs| > 0 {
      assert RowHolds(c, s.db.rows[|rs| - 1], rs[|rs| - 1], |rs| - 1);
    }
  }

  function MemReplies(c: Crypto, issuer: PublicKey, m: MemState, ops: seq<Op>): seq<Reply>
    decreases |ops|
  {
    if ops == [] then []
    else [MemStep(c, issuer, m, ops[0]).1] + MemReplies(c, issuer, MemStep(c, issuer, m, ops[0]).0, ops[1..])
  }

  function SqlReplies(c: Crypto, s: SqlState, ops: seq<Op>): seq<Reply>
    decreases |ops|
  {
    if ops == [] then [] else [SqlStep(c, s, ops[0]).1] + SqlReplies(c, SqlStep(c, s, ops[0]).0, ops[1..])
  }

  lemma AppendStepRefines(c: Crypto, s: SqlState, m: MemState, r: Receipt)
    requires Refines(c, s, m.receipts) && Indexed(c, m) && |m.receipts| < I64_LIMIT
    ensures SqlAppendCheck(c, s, r) == AppendCheck(c, s.issuer, m.receipts, r)
    ensures var m' := MemAppend(c, s.issuer, m, r);
      Refines(c, SqlAppend(c, s, r), m'.receipts) && Indexed(c, m') && |m'.receipts| <= |m.receipts| + 1
  {
    AppendRefines(c, s, m.receipts, r);
    AppendKeepsIndexed(c, s.issuer, m, r);
  }

  /** Anything but an append answers alike and leaves both logs as they are. */
  lemma ReadRefines(c: Crypto, s: SqlState, m: MemState, op: Op)
    requires Refines(c, s, m.receipts) && Indexed(c, m) && |m.receipts| < I64_LIMIT && !op.Append?
    ensures SqlStep(c, s, op) == (s, MemStep(c, s.issuer, m, op).1) && MemStep(c, s.issuer, m, op).0 == m
  {
    match op
    case GetById(id) => LookupByIdRefines(c, s, m, id);
    case GetBySequence(n) => ReadBySequence(c, s, m, n);
    case Last => ReadLast(c, s, m);
    case Length => assert s.cachedLen == |m.receipts|;
    case Reopen => ReopenRefines(c, s, m.receipts);
  }

  lemma ReadBySequence(c: Crypto, s: SqlState, m: MemState, n: u64)
    requires Refines(c, s, m.receipts) && |m.receipts| < I64_LIMIT
    ensures SqlStep(c, s, GetBySequence(n)).1 == MemStep(c, s.issuer, m, GetBySequence(n)).1
  {
    LookupBySequenceRefines(c, s, m.receipts, n);
  }

  lemma ReadLast(c: Crypto, s: SqlState, m: MemState)
    requires Refines(c, s, m.receipts) && |m.receipts| < I64_LIMIT
    ensures SqlStep(c, s, Last).1 == MemStep(c, s.issuer, m, Last).1
  {
    LookupBySequenceRefines(c, s, m.receipts, 0);
  }

  lemma StepRefines(c: Crypto, s: SqlState, m: MemState, op: Op)
    requires Refines(c, s, m.receipts) && Indexed(c, m) && |m.receipts| < I64_LIMIT
    ensures SqlStep(c, s, op).1 == MemStep(c, s.issuer, m, op).1
    ensures var m', s' := MemStep(c, s.issuer, m, op).0, SqlStep(c, s, op).0;
      Refines(c, s', m'.receipts) && Indexed(c, m') && s'.issuer == s.issuer && |m'.receipts| <= |m.receipts| + 1
  {
    if op.Append? {
      AppendStepRefines(c, s, m, op.receipt);
    } else {
      ReadRefines(c, s, m, op);
    }
  }

  function MemAfter(c: Crypto, issuer: PublicKey, m: MemState, ops: seq<Op>): MemState
    decreases |ops|
  {
    if ops == [] then m else MemAfter(c, issuer, MemStep(c, issuer, m, ops[0]).0, ops[1..])
  }

  function SqlAfter(c: Crypto, s: SqlState, ops: seq<Op>): SqlState
    decreases |ops|
  {
    if ops == [] then s else SqlAfter(c, SqlStep(c, s, ops[0]).0, ops[1..])
  }

  lemma {:induction false} RunRefines(c: Crypto, s: SqlState, m: MemState, ops: seq<Op>)
    requires Refines(c, s, m.receipts) && Indexed(c, m) && |m.receipts| + |ops| <= I64_LIMIT
    ensures SqlReplies(c, s, ops) == MemReplies(c, s.issuer, m, ops)
    ensures Refines(c, SqlAfter(c, s, ops), MemAfter(c, s.issuer, m, ops).receipts)
    decreases |ops|
  {
    if ops != [] {
      StepRefines(c, s, m, ops[0]);
      RunRefines(c, SqlStep(c, s, ops[0]).0, MemStep(c, s.issuer, m, ops[0]).0, ops[1..]);
    }
  }

  lemma FreshOpens(c: Crypto, issuer: PublicKey)
    ensures var s := Opened(FreshDatabase(), issuer).1;
      s.Ok? && s.value.issuer == issuer && Refines(c, s.value, [])
  {
    OpenedIsPinned(FreshDatabase(), issuer, issuer);
  }

  /** The SQLite log refines the in-memory log: from a fresh database, any run of at most
      2^63 appends, lookups and reopenings draws the same replies from both, and leaves the
      table, its pins and both caches as the in-memory contents imply. */
  lemma SqliteRefinesMemory(c: Crypto, issuer: PublicKey, ops: seq<Op>)
    requires |ops| <= I64_LIMIT
    ensures Opened(FreshDatabase(), issuer).1.Ok?
    ensures var s := Opened(FreshDatabase(), issuer).1.value;
      && SqlReplies(c, s, ops) == MemReplies(c, issuer, EmptyMem(), ops)
      && Refines(c, SqlAfter(c, s, ops), MemAfter(c, issuer, EmptyMem(), ops).receipts)
  {
    FreshOpens(c, issuer);
    RunRefines(c, Opened(FreshDatabase(), issuer).1.value, EmptyMem(), ops);
  }

  // ---------- the walk over the table ----------

  /** What the rows up to the first undecodable one hold. */
  function DecodedPrefix(rows: seq<Row>): (rs: seq<Receipt>)
    ensures |rs| <= |rows|
    ensures forall i :: 0 <= i < |rs| ==> rows[i].body == Decodes(rs[i])
    ensures |rs| < |rows| ==> rows[|rs|].body.Garbage?
  {
    if rows == [] || rows[0].body.Garbage? then [] else [rows[0].body.receipt] + DecodedPrefix(rows[1..])
  }

  /** The verdict over a table: the walk over what decodes, and then a row that does not. */
  ghost predicate TableVerdict(c: Crypto, rows: seq<Row>, r: Check<VerifyChainError>)
  {
    var rs := DecodedPrefix(rows);
    if |rs| == |rows| || !ValidChain(c, rs) then WalkVerdict(c, rs, r) else r == Fail(SignatureInvalidAt(|rs|))
  }

  /** The walk has passed the first `i` rows and expects the next to link to `prev`. */
  ghost predicate Passed(c: Crypto, rows: seq<Row>, i: nat, prev: Digest)
  {
    var rs := DecodedPrefix(rows);
    i <= |rs| && prev == Head(rs[..i]) && forall j :: 0 <= j < i ==> GoodAt(c, rs, j)
  }

  /** What the walk may conclude at its next row. */
  lemma WalkStep(c: Crypto, rows: seq<Row>, i: nat, prev: Digest)
    requires Passed(c, rows, i, prev) && i < |rows|
    ensures rows[i].body.Garbage? ==> TableVerdict(c, rows, Fail(SignatureInvalidAt(i)))
    ensures rows[i].body.Decodes? ==> var r := rows[i].body.receipt;
      && (Seq(r) != i ==> TableVerdict(c, rows, Fail(SequenceGapAt(i, Seq(r)))))
      && (Seq(r) == i && Prev(r) != prev ==> TableVerdict(c, rows, Fail(BrokenAt(i, prev, Prev(r)))))
      && (Seq(r) == i && Prev(r) == prev && !c.verify(r) ==> TableVerdict(c, rows, Fail(SignatureInvalidAt(i))))
      && (Seq(r) == i && Prev(r) == prev && c.verify(r) ==> Passed(c, rows, i + 1, LeafOf(r)))
  {
    var rs := DecodedPrefix(rows);
    if i < |rs| {
      assert rows[i].body == Decodes(rs[i]);
      if GoodAt(c, rs, i) {
        PassedOneMore(c, rows, i, prev);
      } else {
        FaultVerdict(c, rows, i);
      }
    } else {
      PassedGarbage(c, rows, prev);
    }
  }

  lemma PassedOneMore(c: Crypto, rows: seq<Row>, i: nat, prev: Digest)
    requires Passed(c, rows, i, prev) && i < |DecodedPrefix(rows)| && GoodAt(c, DecodedPrefix(rows), i)
    ensures Passed(c, rows, i + 1, LeafOf(DecodedPrefix(rows)[i]))
  {
    var rs := DecodedPrefix(rows);
    assert rs[..i + 1][i] == rs[i];
  }

  lemma PassedGarbage(c: Crypto, rows: seq<Row>, prev: Digest)
    requires var n := |DecodedPrefix(rows)|; n < |rows| && Passed(c, rows, n, prev)
    ensures TableVerdict(c, rows, Fail(SignatureInvalidAt(|DecodedPrefix(rows)|)))
  {
  }

  lemma FaultVerdict(c: Crypto, rows: seq<Row>, i: nat)
    requires var rs := DecodedPrefix(rows); i < |rs| && FirstFault(c, rs, i)
    ensures TableVerdict(c, rows, Fail(FaultAt(c, DecodedPrefix(rows), i)))
  {
  }

  class SqliteReceiptLog {
    const crypto: Crypto
    const issuer: PublicKey
    var db: Database
    var cachedLen: nat
    var cachedLeaf: Option<Digest>

    constructor (c: Crypto, s: SqlState)
      ensures crypto == c && View() == s
    {
      crypto, issuer := c, s.issuer;
      db, cachedLen, cachedLeaf := s.db, s.cachedLen, s.cachedLeaf;
    }

    /** `open_inner`: pin or check the metadata entries one by one, then rebuild the caches.
        `db` is the file as the attempt leaves it. */
    static method OpenInner(c: Crypto, file: Database, pin: PublicKey)
      returns (db: Database, r: Result<SqliteReceiptLog, OpenError>)
      ensures db == Opened(file, pin).0
      ensures match Opened(file, pin).1
        case Ok(s) => r.Ok? && fresh(r.value) && r.value.crypto == c && r.value.View() == s
        case Err(e) => r == Err(e)
    {
      db := file;
      match CheckMeta(db.schema, SCHEMA_VERSION) {
        case Absent => db := db.(schema := Some(LeBytes(SCHEMA_VERSION, 4)));
        case Agrees =>
        case WrongLength => return db, Err(BadMetaLength("schema_version"));
        case Differs(found) => return db, Err(UnsupportedSchema(found));
      }
      match CheckMeta(db.format, RECEIPT_FORMAT_VERSION) {
        case Absent => db := db.(format := Some(LeBytes(RECEIPT_FORMAT_VERSION, 4)));
        case Agrees =>
        case WrongLength => return db, Err(BadMetaLength("format_version"));
        case Differs(found) => return db, Err(UnsupportedFormat(found));
      }
      match db.issuer {
        case None => db := db.(issuer := Some(pin));
        case Some(stored) =>
          if |stored| != 32 {
            return db, Err(BadMetaLength("issuer"));
          }
          if stored != pin {
            return db, Err(PinnedToOther(stored, pin));
          }
      }
      var cachedLen := |db.rows|;
      var cachedLeaf: Option<Digest> := None;
      if cachedLen != 0 {
        var last := db.rows[cachedLen - 1].body;
        if last.Garbage? {
          return db, Err(UndecodableRow);
        }
        cachedLeaf := Some(last.receipt.body.merkleLeaf.leafHash);
      }
      var log := new SqliteReceiptLog(c, SqlState(db, pin, cachedLen, cachedLeaf));
      return db, Ok(log);
    }

    method Last() returns (r: Option<Receipt>)
      ensures r == SqlLast(View())
    {
      if cachedLen == 0 || |db.rows| == 0 {
        return None;
      }
      return Decoded(Some(db.rows[|db.rows| - 1]));
    }

    method GetById(id: Digest) returns (r: Option<Receipt>)
      ensures r == SqlGetById(View(), id)
    {
      return Decoded(SelectById(db.rows, id));
    }

    function View(): SqlState
      reads this
    {
      SqlState(db, issuer, cachedLen, cachedLeaf)
    }

    method Append(receipt: Receipt) returns (r: Check<AppendError>)
      modifies this
      ensures View() == SqlAppend(crypto, old(View()), receipt)
      ensures r == Verdict(SqlAppendCheck(crypto, old(View()), receipt))
    {
      if receipt.version != RECEIPT_FORMAT_VERSION {
        return Fail(UnsupportedVersion(receipt.version, RECEIPT_FORMAT_VERSION));
      }
      if receipt.issuer != issuer {
        return Fail(IssuerMismatch(issuer, receipt.issuer));
      }
      var expectedSeq := cachedLen;
      var gotSeq := receipt.body.merkleLeaf.sequence;
      if gotSeq != expectedSeq {
        return Fail(OutOfOrder(expectedSeq, gotSeq));
      }
      var expectedPrev := if cachedLeaf.Some? then cachedLeaf.value else ZERO;
      var gotPrev := receipt.body.merkleLeaf.prevHash;
      if gotPrev != expectedPrev {
        return Fail(ChainBroken(expectedPrev, gotPrev));
      }
      if !crypto.verify(receipt) {
        return Fail(SignatureInvalid);
      }
      var id := ContentId(crypto, receipt);
      if gotSeq >= I64_LIMIT {
        return Fail(OutOfOrder(expectedSeq, gotSeq));
      }
      var row := Row(gotSeq, id, receipt.issuer, Decodes(receipt));
      var failure := InsertError(db.rows, row);
      if failure == Some(UniqueViolation) {
        return Fail(DuplicateId(id));
      }
      if failure.Some? {
        return Fail(SignatureInvalid);
      }
      db := db.(rows := Inserted(db.rows, row));
      cachedLen := cachedLen + 1;
      cachedLeaf := Some(receipt.body.merkleLeaf.leafHash);
      return Pass;
    }

    method VerifyChain() returns (r: Check<VerifyChainError>)
      ensures TableVerdict(crypto, db.rows, r)
    {
      var expectedPrev := ZERO;
      var i := 0;
      while i < |db.rows|
        invariant 0 <= i <= |db.rows| && Passed(crypto, db.rows, i, expectedPrev)
      {
        WalkStep(crypto, db.rows, i, expectedPrev);
        if db.rows[i].body.Garbage? {
          return Fail(SignatureInvalidAt(i));
        }
        var receipt := db.rows[i].body.receipt;
        var gotSeq := receipt.body.merkleLeaf.sequence;
        if gotSeq != i {
          return Fail(SequenceGapAt(i, gotSeq));
        }
        var gotPrev := receipt.body.merkleLeaf.prevHash;
        if gotPrev != expectedPrev {
          return Fail(BrokenAt(gotSeq, expectedPrev, gotPrev));
        }
        if !crypto.verify(receipt) {
          return Fail(SignatureInvalidAt(gotSeq));
        }
        expectedPrev := receipt.body.merkleLeaf.leafHash;
        i := i + 1;
      }
      return Pass;
    }
  }

  /** On equal contents, when every row decodes, the two walks return the same result. */
  lemma WalksAgree(c: Crypto, rows: seq<Row>, r: Check<VerifyChainError>, s: Check<VerifyChainError>)
    requires TableVerdict(c, rows, r) && |DecodedPrefix(rows)| == |rows|
    requires WalkVerdict(c, DecodedPrefix(rows), s)
    ensures r == s
  {
    WalkVerdictUnique(c, DecodedPrefix(rows), r, s);
  }
}
