/** Loading GPU-made vectors into `chunk_embeddings`, a table that allows one active row for each chunk,
    inside one transaction. */
module GpuVecs {
  import opened Basics

  datatype Key = Key(chunk: string, model: string)

  datatype Row = Row(dimensions: nat, embedding: Bytes, active: bool, generatedAt: int)

  type Table = map<Key, Row>

  datatype Error =
    | SizeMismatch
    | Fault
    | UniqueViolation
    | ForeignKeyViolation
    | NothingWritten
    | NotStrings
    | WrongIdCount
    | IdsDifferAt(position: nat)
    | NotWholeRows
    | WrongRowCount
    | NotFinite(row: nat)
    | StaleRows(count: nat)
    | WrongTotal(count: nat)

  /** `idx_chunk_embeddings_active`: at most one active row for each chunk. */
  ghost predicate OneActive(t: Table) {
    forall k, l :: k in t && l in t && t[k].active && t[l].active && k.chunk == l.chunk ==> k == l
  }

  predicate OtherActive(t: Table, id: string, model: string) {
    exists k :: k in t && k.chunk == id && k.model != model && t[k].active
  }

  function Retired(t: Table, id: string, model: string): Table {
    map k | k in t :: if k.chunk == id && k.model != model then t[k].(active := false) else t[k]
  }

  /** The upsert: a new row takes the given dimensions, an existing one keeps its own. */
  function Upserted(t: Table, id: string, model: string, dim: nat, blob: Bytes, now: int): Table {
    var key := Key(id, model);
    t[key := Row(if key in t then t[key].dimensions else dim, blob, true, now)]
  }

  function Updated(t: Table, id: string, model: string, blob: Bytes, now: int): Table {
    var key := Key(id, model);
    if key in t then t[key := Row(t[key].dimensions, blob, t[key].active, now)] else t
  }

  /** One connection. `fault` says which statements fail for reasons of their own; `seen` is every state
      of the table since the connection was opened, committed or not. */
  class Db {
    var table: Table
    var before: Table
    const chunks: set<string>
    const foreignKeys: bool
    const fault: nat -> bool
    var statements: nat
    ghost var seen: seq<Table>

    constructor (table: Table, chunks: set<string>, foreignKeys: bool, fault: nat -> bool)
      ensures this.table == table && this.chunks == chunks && this.foreignKeys == foreignKeys && this.fault == fault
      ensures seen == []
    {
      this.table, before, this.chunks, this.foreignKeys, this.fault := table, table, chunks, foreignKeys, fault;
      statements, seen := 0, [];
    }

    method Begin() returns (ok: bool)
      modifies this
      ensures table == old(table) && seen == old(seen) && statements == old(statements) + 1
      ensures ok == !fault(old(statements)) && (ok ==> before == old(table))
    {
      ok := !fault(statements);
      statements := statements + 1;
      if ok {
        before := table;
      }
    }

    method Commit() returns (ok: bool)
      modifies this`statements
      ensures ok == !fault(old(statements)) && statements == old(statements) + 1
    {
      ok := !fault(statements);
      statements := statements + 1;
    }

    method Rollback()
      modifies this`table, this`seen
      ensures table == before && seen == old(seen) + [before]
    {
      table := before;
      seen := seen + [table];
    }

    method Retire(id: string, model: string) returns (r: Result<nat, Error>)
      modifies this`table, this`seen, this`statements
      ensures statements == old(statements) + 1
      ensures r.Success? <==> !fault(old(statements))
      ensures r.Success? ==> table == Retired(old(table), id, model) && seen == old(seen) + [table]
      ensures r.Failure? ==> r.error == Fault && table == old(table) && seen == old(seen)
    {
      statements := statements + 1;
      if fault(statements - 1) {
        return Failure(Fault);
      }
      var changes := if OtherActive(table, id, model) then 1 else 0;
      table := Retired(table, id, model);
      seen := seen + [table];
      r := Success(changes);
    }

    method Upsert(id: string, model: string, dim: nat, blob: Bytes, now: int) returns (r: Result<nat, Error>)
      modifies this`table, this`seen, this`statements
      ensures statements == old(statements) + 1
      ensures r.Success? ==> table == Upserted(old(table), id, model, dim, blob, now) && seen == old(seen) + [table]
      ensures r.Success? ==> r.value == 1
      ensures r.Failure? ==> table == old(table) && seen == old(seen)
      ensures r == Failure(UniqueViolation) ==> OtherActive(old(table), id, model)
      ensures r == Failure(ForeignKeyViolation) <==>
        && !fault(old(statements)) && !OtherActive(old(table), id, model)
        && foreignKeys && id !in chunks && Key(id, model) !in old(table)
      ensures r.Failure? ==> r.error.Fault? || r.error.UniqueViolation? || r.error.ForeignKeyViolation?
      ensures r == Failure(Fault) <==> fault(old(statements))
    {
      statements := statements + 1;
      if fault(statements - 1) {
        return Failure(Fault);
      }
      if OtherActive(table, id, model) {
        return Failure(UniqueViolation);
      }
      if foreignKeys && id !in chunks && Key(id, model) !in table {
        return Failure(ForeignKeyViolation);
      }
      table := Upserted(table, id, model, dim, blob, now);
      seen := seen + [table];
      r := Success(1);
    }

    method Update(id: string, model: string, blob: Bytes, now: int) returns (r: Result<nat, Error>)
      modifies this`table, this`seen, this`statements
      ensures statements == old(statements) + 1
      ensures r.Success? <==> !fault(old(statements))
      ensures r.Success? ==> table == Updated(old(table), id, model, blob, now) && seen == old(seen) + [table]
      ensures r.Success? ==> r.value == if Key(id, model) in old(table) then 1 else 0
      ensures r.Failure? ==> r.error == Fault && table == old(table) && seen == old(seen)
    {
      statements := statements + 1;
      if fault(statements - 1) {
        return Failure(Fault);
      }
      r := Success(if Key(id, model) in table then 1 else 0);
      table := Updated(table, id, model, blob, now);
      seen := seen + [table];
    }
  }

  // ---- what a load makes of the table ----

  /** The options of a load; `row` is how `vecs` is cut into rows. */
  datatype Load = Load(model: string, dim: nat, ids: seq<string>, vecs: Bytes, row: nat -> Bytes, insert: bool,
                       now: int)

  ghost predicate WellCut(l: Load) { l.row == RowsOf(l.vecs, l.dim) }

  function RowBytes(l: Load): nat { l.dim * 4 }

  ghost predicate Sized(l: Load) { |l.vecs| == |l.ids| * RowBytes(l) }

  lemma RowWithin(b: nat, n: nat, i: nat)
    requires i < n
    ensures 0 <= i * b <= (i + 1) * b <= n * b
  {
    TimesMonotone(0, i, b);
    TimesMonotone(i, i + 1, b);
    TimesMonotone(i + 1, n, b);
  }

  /** `vecs.subarray(i * bytesPer, (i + 1) * bytesPer)`. */
  function Subarray(vecs: Bytes, dim: nat, i: nat): Bytes {
    var from, to := i * (dim * 4), (i + 1) * (dim * 4);
    if 0 <= from <= to <= |vecs| then vecs[from..to] else []
  }

  function RowsOf(vecs: Bytes, dim: nat): nat -> Bytes {
    (i: nat) => Subarray(vecs, dim, i)
  }

  /** `row` is the `i`-th of the rows of `4 dim` bytes that the matrix is made of. */
  ghost predicate RowAt(l: Load, i: nat, row: Bytes) {
    && |row| == l.dim * 4
    && forall k :: 0 <= k < |row| ==> i * (l.dim * 4) + k < |l.vecs| && row[k] == l.vecs[i * (l.dim * 4) + k]
  }

  lemma RowIsAt(l: Load, i: nat)
    requires WellCut(l) && Sized(l) && i < |l.ids|
    ensures RowAt(l, i, l.row(i))
  {
    var b := l.dim * 4;
    RowWithin(b, |l.ids|, i);
    assert (i + 1) * b - i * b == b;
    var row := l.row(i);
    assert row == l.vecs[i * b..(i + 1) * b];
  }

  /** The table after the first `n` ids. */
  function After(t: Table, l: Load, n: nat): Table
    requires n <= |l.ids|
  {
    if n == 0 then t else Step(After(t, l, n - 1), l, n - 1)
  }

  function Step(s: Table, l: Load, i: nat): Table
    requires i < |l.ids|
  {
    var id := l.ids[i];
    if l.insert then Upserted(Retired(s, id, l.model), id, l.model, l.dim, l.row(i), l.now)
    else Updated(s, id, l.model, l.row(i), l.now)
  }

  lemma RetiredKeepsOneActive(t: Table, id: string, model: string)
    requires OneActive(t)
    ensures OneActive(Retired(t, id, model)) && !OtherActive(Retired(t, id, model), id, model)
  {
  }

  lemma UpsertedKeepsOneActive(t: Table, id: string, model: string, dim: nat, blob: Bytes, now: int)
    requires OneActive(t) && !OtherActive(t, id, model)
    ensures OneActive(Upserted(t, id, model, dim, blob, now))
  {
    var u := Upserted(t, id, model, dim, blob, now);
    forall k, l | k in u && l in u && u[k].active && u[l].active && k.chunk == l.chunk ensures k == l {
      if k.chunk == id {
        assert k.model == model && l.model == model;
      }
    }
  }

  lemma UpdatedKeepsOneActive(t: Table, id: string, model: string, blob: Bytes, now: int)
    requires OneActive(t)
    ensures OneActive(Updated(t, id, model, blob, now))
  {
  }

  ghost predicate AllOneActive(seen: seq<Table>) {
    seen == [] || (OneActive(seen[|seen| - 1]) && AllOneActive(seen[..|seen| - 1]))
  }

  /** The table has at most one active row for each chunk, now and in every state seen. */
  ghost predicate Sound(seen: seq<Table>, now: Table) {
    AllOneActive(seen + [now])
  }

  lemma SoundMeans(seen: seq<Table>, now: Table)
    ensures Sound(seen, now) <==> AllOneActive(seen) && OneActive(now)
  {
    assert (seen + [now])[..|seen|] == seen;
  }

  lemma SoundNext(seen: seq<Table>, now: Table, next: Table)
    requires Sound(seen, now) && OneActive(next)
    ensures Sound(seen + [next], next)
  {
    SoundMeans(seen, now);
    SoundMeans(seen, next);
    SoundMeans(seen + [next], next);
  }

  /** Row `i` is for a chunk that is gone and has no row to update: foreign keys forbid inserting one. */
  predicate Orphan(t: Table, l: Load, chunks: set<string>, i: nat)
    requires i < |l.ids|
  {
    l.insert && l.ids[i] !in chunks && Key(l.ids[i], l.model) !in t
  }

  ghost predicate NoOrphan(t: Table, l: Load, db: Db, n: nat)
    requires n <= |l.ids|
  {
    db.foreignKeys ==> forall i :: 0 <= i < n ==> !Orphan(t, l, db.chunks, i)
  }

  lemma {:induction false} KeyAfter(t: Table, l: Load, n: nat, id: string)
    requires n <= |l.ids|
    ensures Key(id, l.model) in After(t, l, n) <==> Key(id, l.model) in t || (l.insert && id in l.ids[..n])
  {
    if n > 0 {
      KeyAfter(t, l, n - 1, id);
      assert l.ids[..n] == l.ids[..n - 1] + [l.ids[n - 1]];
    }
  }

  /** The first row without a chunk is an orphan now exactly if it was one at the start. */
  lemma OrphanSince(t: Table, l: Load, db: Db, i: nat)
    requires i < |l.ids| && NoOrphan(t, l, db, i) && l.insert && db.foreignKeys
    ensures Orphan(After(t, l, i), l, db.chunks, i) <==> Orphan(t, l, db.chunks, i)
  {
    KeyAfter(t, l, i, l.ids[i]);
    if l.ids[i] in l.ids[..i] {
      var j :| 0 <= j < i && l.ids[j] == l.ids[i];
      assert !Orphan(t, l, db.chunks, j);
    }
  }

  // ---- the load ----

  /** How a stretch of the load that has come to row `n` ended: with an error exactly because a statement of its own
      failed, or the next row is an orphan. It never violates the index on active rows. */
  ghost predicate Ended(t: Table, l: Load, db: Db, from: nat, to: nat, n: nat, r: Result<nat, Error>)
    requires n <= |l.ids|
  {
    && (r.Success? <==> NoFault(db.fault, from, to) && NoOrphan(t, l, db, n))
    && (r.Failure? ==> r.error == if NoFault(db.fault, from, to) then ForeignKeyViolation else Fault)
  }

  /** How many rows the first `n` statements report as changed. */
  function Written(t: Table, l: Load, n: nat): nat
    requires n <= |l.ids|
  {
    if n == 0 then 0
    else Written(t, l, n - 1) + (if l.insert || Key(l.ids[n - 1], l.model) in After(t, l, n - 1) then 1 else 0)
  }

  lemma NoOrphanNext(t: Table, l: Load, db: Db, i: nat)
    requires i < |l.ids|
    ensures NoOrphan(t, l, db, i + 1) <==> NoOrphan(t, l, db, i) && (db.foreignKeys ==> !Orphan(t, l, db.chunks, i))
  {
  }

  lemma NoFaultNext(fault: nat -> bool, from: nat, to: nat)
    requires from <= to
    ensures NoFault(fault, from, to + 1) <==> NoFault(fault, from, to) && !fault(to)
    ensures NoFault(fault, from, from)
  {
  }

  lemma EndsWithFault(t: Table, l: Load, db: Db, from: nat, i: nat)
    requires i < |l.ids| && db.fault(from)
    ensures Ended(t, l, db, from, from + 1, i + 1, Failure(Fault))
  {
    NoFaultNext(db.fault, from, from);
  }

  /** How an insert ends once the chunk's other rows are retired. */
  lemma EndsWithUpsert(t: Table, l: Load, db: Db, from: nat, i: nat, r: Result<nat, Error>)
    requires i < |l.ids| && l.insert && NoOrphan(t, l, db, i) && !db.fault(from)
    requires r == Failure(Fault) <==> db.fault(from + 1)
    requires r == Failure(ForeignKeyViolation) <==>
      !db.fault(from + 1) && db.foreignKeys && Orphan(After(t, l, i), l, db.chunks, i)
    requires r.Failure? ==> r.error.Fault? || r.error.ForeignKeyViolation?
    ensures Ended(t, l, db, from, from + 2, i + 1, r)
  {
    NoFaultNext(db.fault, from, from);
    NoFaultNext(db.fault, from, from + 1);
    NoOrphanNext(t, l, db, i);
    if db.foreignKeys {
      OrphanSince(t, l, db, i);
    }
  }

  /** The chunk's rows under other models are no longer active. */
  method RetireOthers(db: Db, l: Load, i: nat) returns (r: Result<nat, Error>)
    requires i < |l.ids| && Sound(db.seen, db.table)
    modifies db`table, db`seen, db`statements
    ensures Sound(db.seen, db.table) && db.statements == old(db.statements) + 1
    ensures r == Failure(Fault) <==> db.fault(old(db.statements))
    ensures r.Failure? ==> r.error.Fault?
    ensures r.Success? ==>
      db.table == Retired(old(db.table), l.ids[i], l.model) && !OtherActive(db.table, l.ids[i], l.model)
  {
    SoundMeans(db.seen, db.table);
    RetiredKeepsOneActive(db.table, l.ids[i], l.model);
    SoundNext(db.seen, db.table, Retired(db.table, l.ids[i], l.model));
    r := db.Retire(l.ids[i], l.model);
  }

  /** With no other active row, the row is written as the active one. */
  method UpsertRow(db: Db, l: Load, i: nat) returns (r: Result<nat, Error>)
    requires i < |l.ids| && Sound(db.seen, db.table) && !OtherActive(db.table, l.ids[i], l.model)
    modifies db`table, db`seen, db`statements
    ensures Sound(db.seen, db.table) && db.statements == old(db.statements) + 1
    ensures r == Failure(Fault) <==> db.fault(old(db.statements))
    ensures r == Failure(ForeignKeyViolation) <==>
      && !db.fault(old(db.statements))
      && db.foreignKeys && l.ids[i] !in db.chunks && Key(l.ids[i], l.model) !in old(db.table)
    ensures r.Failure? ==> r.error.Fault? || r.error.ForeignKeyViolation?
    ensures r.Success? ==> r.value == 1
    ensures r.Success? ==> db.table == Upserted(old(db.table), l.ids[i], l.model, l.dim, l.row(i), l.now)
  {
    SoundMeans(db.seen, db.table);
    UpsertedKeepsOneActive(db.table, l.ids[i], l.model, l.dim, l.row(i), l.now);
    SoundNext(db.seen, db.table, Upserted(db.table, l.ids[i], l.model, l.dim, l.row(i), l.now));
    r := db.Upsert(l.ids[i], l.model, l.dim, l.row(i), l.now);
  }

  method InsertOne(db: Db, l: Load, i: nat, ghost t0: Table) returns (r: Result<nat, Error>)
    requires i < |l.ids| && l.insert && db.table == After(t0, l, i)
    requires Sound(db.seen, db.table) && NoOrphan(t0, l, db, i)
    modifies db`table, db`seen, db`statements
    ensures Sound(db.seen, db.table) && old(db.statements) <= db.statements
    ensures Ended(t0, l, db, old(db.statements), db.statements, i + 1, r)
    ensures r.Success? ==> db.table == After(t0, l, i + 1) && r.value == 1
  {
    ghost var from := db.statements;
    r := RetireOthers(db, l, i);
    if r.Failure? {
      EndsWithFault(t0, l, db, from, i);
      return;
    }
    r := UpsertRow(db, l, i);
    EndsWithUpsert(t0, l, db, from, i, r);
  }

  /** One id: retire the chunk's rows under other models, then write this one. */
  method WriteOne(db: Db, l: Load, i: nat, ghost t0: Table) returns (r: Result<nat, Error>)
    requires i < |l.ids| && db.table == After(t0, l, i) && Sound(db.seen, db.table) && NoOrphan(t0, l, db, i)
    modifies db`table, db`seen, db`statements
    ensures Sound(db.seen, db.table) && old(db.statements) <= db.statements
    ensures Ended(t0, l, db, old(db.statements), db.statements, i + 1, r)
    ensures r.Success? ==> db.table == After(t0, l, i + 1)
    ensures r.Success? ==> Written(t0, l, i) + r.value == Written(t0, l, i + 1)
  {
    if l.insert {
      r := InsertOne(db, l, i, t0);
      return;
    }
    var id, blob := l.ids[i], l.row(i);
    NoFaultNext(db.fault, db.statements, db.statements);
    NoOrphanNext(t0, l, db, i);
    SoundMeans(db.seen, db.table);
    UpdatedKeepsOneActive(db.table, id, l.model, blob, l.now);
    SoundNext(db.seen, db.table, Updated(db.table, id, l.model, blob, l.now));
    r := db.Update(id, l.model, blob, l.now);
  }

  /** The loop of the transaction. */
  method WriteRows(db: Db, l: Load) returns (r: Result<nat, Error>)
    requires Sound(db.seen, db.table)
    modifies db`table, db`seen, db`statements
    ensures Sound(db.seen, db.table) && old(db.statements) <= db.statements
    ensures Ended(old(db.table), l, db, old(db.statements), db.statements, |l.ids|, r)
    ensures r.Success? ==> db.table == After(old(db.table), l, |l.ids|) && r.value == Written(old(db.table), l, |l.ids|)
  {
    ghost var t0 := db.table;
    var written := 0;
    for i := 0 to |l.ids|
      invariant db.table == After(t0, l, i) && Sound(db.seen, db.table)
      invariant written == Written(t0, l, i)
      invariant old(db.statements) <= db.statements
      invariant NoFault(db.fault, old(db.statements), db.statements) && NoOrphan(t0, l, db, i)
    {
      r := WriteOne(db, l, i, t0);
      if r.Failure? {
        return;
      }
      written := written + r.value;
    }
    r := Success(written);
  }

  /** All rows or none: a failure leaves the table as it was, a success makes it `After` all ids; no state on
      the way has two active rows for a chunk, so the index is never violated. It succeeds exactly when the sizes
      fit, no statement fails, no row is an orphan, and something is written. */
  method LoadGpuVecs(db: Db, l: Load) returns (r: Result<nat, Error>)
    requires WellCut(l) && Sound(db.seen, db.table)
    modifies db
    ensures Sound(db.seen, db.table)
    ensures r.Failure? ==> db.table == old(db.table)
    ensures r.Success? ==> db.table == After(old(db.table), l, |l.ids|)
    ensures r.Success? ==> r.value == Written(old(db.table), l, |l.ids|) > 0
    ensures r.Success? ==> RowsStored(old(db.table), db.table, l)
    ensures r == Failure(SizeMismatch) <==> !Sized(l)
    ensures Sized(l) ==>
      var smooth := NoFault(db.fault, old(db.statements), db.statements);
      var linked := NoOrphan(old(db.table), l, db, |l.ids|);
      && (r.Success? <==> smooth && linked && Written(old(db.table), l, |l.ids|) > 0)
      && (r == Failure(Fault) <==> !smooth)
      && (r == Failure(ForeignKeyViolation) <==> smooth && !linked)
      && (r == Failure(NothingWritten) <==> smooth && linked && Written(old(db.table), l, |l.ids|) == 0)
  {
    if |l.vecs| != |l.ids| * RowBytes(l) {
      return Failure(SizeMismatch);
    }
    var begun := db.Begin();
    if !begun {
      return Failure(Fault);
    }
    SoundMeans(db.seen, db.table);
    AfterStores(db.table, l);
    r := WriteRows(db, l);
    if r.Success? && r.value == 0 {
      r := Failure(NothingWritten);
    }
    if r.Success? {
      var committed := db.Commit();
      if committed {
        return;
      }
      r := Failure(Fault);
    }
    SoundNext(db.seen, db.table, db.before);
    db.Rollback();
  }

  // ---- the loaded table ----

  function Find(t: Table, k: Key): Option<Row> {
    if k in t then Some(t[k]) else None
  }

  /** Where `id` occurs last. */
  function Last(ids: seq<string>, id: string): (i: nat)
    requires id in ids
    ensures i < |ids| && ids[i] == id && forall j :: i < j < |ids| ==> ids[j] != id
  {
    var n := |ids|;
    assert ids == ids[..n - 1] + [ids[n - 1]];
    if ids[n - 1] == id then n - 1 else Last(ids[..n - 1], id)
  }

  /** The row under `k` once `ids` are loaded with `insert`: a loaded chunk has the blob of its last
      occurrence as its active row and all its other rows retired; other chunks are untouched. */
  function Inserted(t: Table, l: Load, ids: seq<string>, k: Key): Option<Row> {
    if k.chunk !in ids then Find(t, k)
    else if k.model == l.model then
      Some(Row(if k in t then t[k].dimensions else l.dim, l.row(Last(ids, k.chunk)), true, l.now))
    else if k in t then Some(t[k].(active := false)) else None
  }

  /** Without `insert`: only rows that exist under the model change, and they stay as active as they were. */
  function Refreshed(t: Table, l: Load, ids: seq<string>, k: Key): Option<Row> {
    if k in t && k.chunk in ids && k.model == l.model then
      Some(Row(t[k].dimensions, l.row(Last(ids, k.chunk)), t[k].active, l.now))
    else Find(t, k)
  }

  /** Rows of other chunks are left alone by a step. */
  lemma InsertElsewhere(s: Table, l: Load, n: nat, k: Key)
    requires n < |l.ids| && l.insert && k.chunk != l.ids[n]
    ensures Find(Step(s, l, n), k) == Find(s, k)
  {
  }

  lemma InsertHere(s: Table, l: Load, n: nat, k: Key)
    requires n < |l.ids| && l.insert && k.chunk == l.ids[n]
    ensures k.model != l.model ==> Find(Step(s, l, n), k) == if k in s then Some(s[k].(active := false)) else None
    ensures k.model == l.model ==>
      Find(Step(s, l, n), k) == Some(Row(if k in s then s[k].dimensions else l.dim, l.row(n), true, l.now))
  {
  }

  lemma InsertStep(t: Table, s: Table, l: Load, n: nat, k: Key)
    requires n < |l.ids| && l.insert
    requires Find(s, k) == Inserted(t, l, l.ids[..n], k)
    ensures Find(Step(s, l, n), k) == Inserted(t, l, l.ids[..n + 1], k)
  {
    var id := l.ids[n];
    LastOfMore(l.ids[..n], id, k.chunk);
    assert l.ids[..n + 1] == l.ids[..n] + [id];
    if k.chunk != id {
      InsertElsewhere(s, l, n, k);
    } else {
      InsertHere(s, l, n, k);
    }
  }

  lemma UpdateStep(t: Table, s: Table, l: Load, n: nat, k: Key)
    requires n < |l.ids| && !l.insert
    requires Find(s, k) == Refreshed(t, l, l.ids[..n], k)
    ensures Find(Step(s, l, n), k) == Refreshed(t, l, l.ids[..n + 1], k)
  {
    var id := l.ids[n];
    LastOfMore(l.ids[..n], id, k.chunk);
    assert l.ids[..n + 1] == l.ids[..n] + [id];
    if k.chunk != id {
      assert k.chunk in l.ids[..n + 1] <==> k.chunk in l.ids[..n];
    }
  }

  /** Every row of `s` is what loading `ids` into `t` should make of it. */
  ghost predicate AsLoaded(s: Table, t: Table, l: Load, ids: seq<string>) {
    forall k: Key :: Find(s, k) == if l.insert then Inserted(t, l, ids, k) else Refreshed(t, l, ids, k)
  }

  lemma NothingLoaded(t: Table, l: Load)
    ensures AsLoaded(t, t, l, [])
  {
  }

  lemma StepLoads(s: Table, t: Table, l: Load, n: nat)
    requires n < |l.ids| && AsLoaded(s, t, l, l.ids[..n])
    ensures AsLoaded(Step(s, l, n), t, l, l.ids[..n + 1])
  {
    if l.insert {
      forall k: Key ensures Find(Step(s, l, n), k) == Inserted(t, l, l.ids[..n + 1], k) {
        InsertStep(t, s, l, n, k);
      }
    } else {
      forall k: Key ensures Find(Step(s, l, n), k) == Refreshed(t, l, l.ids[..n + 1], k) {
        UpdateStep(t, s, l, n, k);
      }
    }
  }

  /** What the loop makes of the table, row by row. */
  lemma {:induction false} AfterIsLoaded(t: Table, l: Load, n: nat)
    requires n <= |l.ids|
    ensures AsLoaded(After(t, l, n), t, l, l.ids[..n])
  {
    if n == 0 {
      NothingLoaded(t, l);
      assert l.ids[..0] == [];
    } else {
      AfterIsLoaded(t, l, n - 1);
      StepLoads(After(t, l, n - 1), t, l, n - 1);
    }
  }

  lemma LastOfMore(ids: seq<string>, last: string, id: string)
    ensures id in ids + [last] <==> id in ids || id == last
    ensures id in ids + [last] ==> Last(ids + [last], id) == if id == last then |ids| else Last(ids, id)
  {
    assert (ids + [last])[..|ids|] == ids;
  }

  /** Every id has its row of the matrix: the last one, if it occurs more than once, and without `insert` only if
      there was a row to update. */
  ghost predicate RowsStored(t: Table, u: Table, l: Load) {
    forall i :: 0 <= i < |l.ids| && l.ids[i] !in l.ids[i + 1..] && (l.insert || Key(l.ids[i], l.model) in t) ==>
      Key(l.ids[i], l.model) in u && RowAt(l, i, u[Key(l.ids[i], l.model)].embedding)
  }

  lemma LastIs(ids: seq<string>, i: nat)
    requires i < |ids| && ids[i] !in ids[i + 1..]
    ensures Last(ids, ids[i]) == i
  {
    forall j | i < j < |ids| ensures ids[j] in ids[i + 1..] {
      assert ids[i + 1..][j - i - 1] == ids[j];
    }
  }

  lemma AfterStores(t: Table, l: Load)
    requires WellCut(l) && Sized(l)
    ensures RowsStored(t, After(t, l, |l.ids|), l)
  {
    var u := After(t, l, |l.ids|);
    assert l.ids[..|l.ids|] == l.ids;
    AfterIsLoaded(t, l, |l.ids|);
    forall i | 0 <= i < |l.ids| && l.ids[i] !in l.ids[i + 1..] && (l.insert || Key(l.ids[i], l.model) in t)
      ensures Key(l.ids[i], l.model) in u && RowAt(l, i, u[Key(l.ids[i], l.model)].embedding)
    {
      var key := Key(l.ids[i], l.model);
      LastIs(l.ids, i);
      assert Find(u, key) == if l.insert then Inserted(t, l, l.ids, key) else Refreshed(t, l, l.ids, key);
      RowIsAt(l, i);
    }
  }

  /** Distinct ids loaded with `insert`: row `i` of the matrix is the one active row of `ids[i]`, and the
      rows of every other chunk are what they were. */
  lemma DistinctIdsLoad(t: Table, l: Load)
    requires l.insert && NoDuplicates(l.ids)
    ensures forall i :: 0 <= i < |l.ids| ==> SoleActive(After(t, l, |l.ids|), Key(l.ids[i], l.model), l.row(i))
    ensures forall k: Key :: k.chunk !in l.ids ==> Find(After(t, l, |l.ids|), k) == Find(t, k)
    ensures WellCut(l) && Sized(l) ==> forall i :: 0 <= i < |l.ids| ==> RowAt(l, i, l.row(i))
  {
    if WellCut(l) && Sized(l) {
      forall i | 0 <= i < |l.ids| ensures RowAt(l, i, l.row(i)) {
        RowIsAt(l, i);
      }
    }
    var u := After(t, l, |l.ids|);
    assert l.ids[..|l.ids|] == l.ids;
    AfterIsLoaded(t, l, |l.ids|);
    forall i | 0 <= i < |l.ids| ensures SoleActive(u, Key(l.ids[i], l.model), l.row(i)) {
      var key := Key(l.ids[i], l.model);
      assert Last(l.ids, key.chunk) == i;
      assert Find(u, key) == Inserted(t, l, l.ids, key);
      forall k | k in u && k.chunk == key.chunk && u[k].active ensures k == key {
        assert Find(u, k) == Inserted(t, l, l.ids, k);
      }
    }
  }

  ghost predicate SoleActive(t: Table, key: Key, blob: Bytes) {
    && key in t && t[key].active && t[key].embedding == blob
    && forall k :: k in t && k.chunk == key.chunk && t[k].active ==> k == key
  }

  /** Loading over a row keeps the width the row had, whatever width was loaded: a load at another width
      under the same model leaves a row whose `dimensions` disagree with its bytes, exactly then. */
  lemma WidthsAgreeExactly(t: Table, l: Load, i: nat)
    requires l.insert && NoDuplicates(l.ids) && WellCut(l) && Sized(l) && i < |l.ids|
    ensures var key := Key(l.ids[i], l.model);
      var row := Inserted(t, l, l.ids, key).value;
      |row.embedding| == row.dimensions * 4 <==> (key in t ==> t[key].dimensions == l.dim)
  {
    assert Last(l.ids, l.ids[i]) == i;
    RowWithin(RowBytes(l), |l.ids|, i);
    assert (i + 1) * RowBytes(l) - i * RowBytes(l) == RowBytes(l);
  }

  lemma {:induction false} InsertWritesAll(t: Table, l: Load, n: nat)
    requires l.insert && n <= |l.ids|
    ensures Written(t, l, n) == n
  {
    if n > 0 {
      InsertWritesAll(t, l, n - 1);
    }
  }
}
