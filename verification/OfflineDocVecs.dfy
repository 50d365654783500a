/** Loading a GPU run's document vectors into an arm's index copy: the checks that come before the first
    write, and the count that comes after the last. */
module OfflineDocVecs {
  import opened Basics
  import opened GpuVecs

  /** What the ids file parsed to. */
  datatype Json = Strings(ids: seq<string>) | SomethingElse

  method AssertIdsMatch(exported: seq<string>, given: Json) returns (r: Result<(), Error>)
    ensures r.Success? <==> given == Strings(exported)
    ensures r == Failure(NotStrings) <==> given.SomethingElse?
    ensures r == Failure(WrongIdCount) <==> given.Strings? && |given.ids| != |exported|
    ensures r.Failure? ==>
      || r.error in {NotStrings, WrongIdCount}
      || (r.error.IdsDifferAt? && FirstDifference(exported, given, r.error.position))
  {
    if given.SomethingElse? {
      return Failure(NotStrings);
    }
    if |given.ids| != |exported| {
      return Failure(WrongIdCount);
    }
    for at := 0 to |exported|
      invariant given.ids[..at] == exported[..at]
    {
      if given.ids[at] != exported[at] {
        return Failure(IdsDifferAt(at));
      }
    }
    r := Success(());
  }

  ghost predicate FirstDifference(exported: seq<string>, given: Json, at: nat) {
    && given.Strings? && |given.ids| == |exported| && at < |exported|
    && given.ids[at] != exported[at] && given.ids[..at] == exported[..at]
  }

  /** How many rows of the matrix there are, if they are whole. */
  method Rows(vecs: Bytes, dims: nat) returns (r: Result<nat, Error>)
    ensures r.Success? <==> dims > 0 && |vecs| % (dims * 4) == 0
    ensures r.Success? ==> r.value == |vecs| / (dims * 4)
    ensures r.Failure? ==> r.error == NotWholeRows
  {
    var rowBytes := dims * 4;
    if rowBytes == 0 || |vecs| % rowBytes != 0 {
      return Failure(NotWholeRows);
    }
    r := Success(|vecs| / rowBytes);
  }

  lemma DivideMultiple(n: nat, b: nat)
    requires b > 0
    ensures n * b / b == n && n * b % b == 0
  {
    var q, r := n * b / b, n * b % b;
    assert n * b == q * b + r;
    assert (n - q) * b == r;
    SmallMultiple(n - q, b);
  }

  lemma SmallMultiple(d: int, b: nat)
    requires 0 <= d * b < b
    ensures d == 0
  {
  }

  lemma WholeRows(l: Load)
    requires l.dim > 0
    ensures |l.vecs| % RowBytes(l) == 0 && |l.vecs| / RowBytes(l) == |l.ids| <==> Sized(l)
  {
    DivideMultiple(|l.ids|, RowBytes(l));
  }

  /** The first row with a value that is not finite, if there is one. */
  method CheckFinite(l: Load, rows: nat, finite: Bytes -> bool) returns (r: Result<(), Error>)
    ensures r.Success? <==> forall i :: 0 <= i < rows ==> finite(l.row(i))
    ensures r.Failure? ==> r.error.NotFinite? && r.error.row < rows && !finite(l.row(r.error.row))
  {
    for i := 0 to rows
      invariant forall j :: 0 <= j < i ==> finite(l.row(j))
    {
      if !finite(l.row(i)) {
        return Failure(NotFinite(i));
      }
    }
    r := Success(());
  }

  function Under(t: Table, model: string): (ks: set<Key>)
    ensures forall k :: k in ks <==> k in t && k.model == model
  {
    set k | k in t && k.model == model
  }

  function Stale(t: Table, model: string, exported: seq<string>): set<Key> {
    set k | k in t && k.model == model && k.chunk !in exported
  }

  function KeysOf(ids: seq<string>, model: string): (ks: set<Key>)
    ensures forall k :: k in ks <==> k.model == model && k.chunk in ids
  {
    set id | id in ids :: Key(id, model)
  }

  /** Distinct ids make as many keys; a repeated id makes fewer. */
  lemma {:induction false} KeysOfDistinct(ids: seq<string>, model: string)
    ensures |KeysOf(ids, model)| <= |ids|
    ensures |KeysOf(ids, model)| == |ids| <==> NoDuplicates(ids)
  {
    if ids == [] {
      assert KeysOf(ids, model) == {};
    } else {
      var init, last := ids[..|ids| - 1], ids[|ids| - 1];
      KeysOfDistinct(init, model);
      assert ids == init + [last];
      assert KeysOf(ids, model) == KeysOf(init, model) + {Key(last, model)};
      if last in init {
        assert Key(last, model) in KeysOf(init, model);
        assert KeysOf(ids, model) == KeysOf(init, model);
        var i :| 0 <= i < |init| && init[i] == last;
        assert ids[i] == ids[|ids| - 1];
      } else {
        assert NoDuplicates(ids) <==> NoDuplicates(init);
      }
    }
  }

  /** The stale rows are those under the model that belong to no id. */
  lemma StaleMeans(t: Table, model: string, ids: seq<string>)
    ensures Stale(t, model, ids) == Under(t, model) - KeysOf(ids, model)
    ensures Stale(t, model, ids) == {} <==> forall k :: k in t && k.model == model ==> k.chunk in ids
  {
    if k :| k in t && k.model == model && k.chunk !in ids {
      assert k in Stale(t, model, ids);
    }
  }

  /** After a load that found no stale rows, the rows under the model are those of the ids. */
  lemma RowsAfterLoad(t: Table, l: Load)
    requires l.insert && forall k :: k in t && k.model == l.model ==> k.chunk in l.ids
    ensures Under(After(t, l, |l.ids|), l.model) == KeysOf(l.ids, l.model)
  {
    var u := After(t, l, |l.ids|);
    assert l.ids[..|l.ids|] == l.ids;
    AfterIsLoaded(t, l, |l.ids|);
    forall k: Key ensures k in Under(u, l.model) <==> k in KeysOf(l.ids, l.model) {
      assert Find(u, k) == Inserted(t, l, l.ids, k);
    }
  }

  /** All checks before the first write pass. */
  ghost predicate Accepted(t: Table, l: Load, given: Json, finite: Bytes -> bool) {
    && given == Strings(l.ids)
    && l.dim > 0 && Sized(l)
    && (forall i :: 0 <= i < |l.ids| ==> finite(l.row(i)))
    && (forall k :: k in t && k.model == l.model ==> k.chunk in l.ids)
  }

  method CheckInput(t: Table, l: Load, given: Json, finite: Bytes -> bool) returns (r: Result<(), Error>)
    ensures r.Success? <==> Accepted(t, l, given, finite)
    ensures r.Failure? ==> !r.error.WrongTotal?
    ensures r.Failure? && r.error.StaleRows? ==> r.error.count == |Under(t, l.model) - KeysOf(l.ids, l.model)|
  {
    r := AssertIdsMatch(l.ids, given);
    if r.Failure? {
      return;
    }
    var rows := Rows(l.vecs, l.dim);
    if l.dim > 0 {
      WholeRows(l);
    }
    if rows.Failure? {
      return Failure(rows.error);
    }
    if rows.value != |l.ids| {
      return Failure(WrongRowCount);
    }
    r := CheckFinite(l, rows.value, finite);
    if r.Failure? {
      return;
    }
    StaleMeans(t, l.model, l.ids);
    var stale := Stale(t, l.model, l.ids);
    if |stale| > 0 {
      return Failure(StaleRows(|stale|));
    }
    r := Success(());
  }

  /** A failed check or a failed load leaves the table as it was. The count at the end can only fail when an
      id is repeated, and then it fails with the load already committed. Once the checks have passed, the load
      returns normally exactly when no statement fails, no chunk is gone, and the ids are distinct and not none. */
  method LoadOfflineDocVecs(db: Db, l: Load, given: Json, finite: Bytes -> bool) returns (r: Result<nat, Error>)
    requires l.insert && WellCut(l) && Sound(db.seen, db.table)
    modifies db
    ensures Sound(db.seen, db.table)
    ensures r.Success? ==> Accepted(old(db.table), l, given, finite) && NoDuplicates(l.ids) && l.ids != []
    ensures r.Success? ==> r.value == |l.ids| && db.table == After(old(db.table), l, |l.ids|)
    ensures r.Success? ==>
      forall i :: 0 <= i < |l.ids| ==> SoleActive(db.table, Key(l.ids[i], l.model), l.row(i)) && RowAt(l, i, l.row(i))
    ensures r.Failure? && r.error.WrongTotal? ==> !NoDuplicates(l.ids) && db.table == After(old(db.table), l, |l.ids|)
    ensures r.Failure? && !r.error.WrongTotal? ==> db.table == old(db.table)
    ensures Accepted(old(db.table), l, given, finite) ==>
      var smooth := NoFault(db.fault, old(db.statements), db.statements);
      var linked := NoOrphan(old(db.table), l, db, |l.ids|);
      && (r.Success? <==> smooth && linked && l.ids != [] && NoDuplicates(l.ids))
      && (r.Failure? && r.error.WrongTotal? <==> smooth && linked && !NoDuplicates(l.ids))
      && (r == Failure(Fault) <==> !smooth)
      && (r == Failure(ForeignKeyViolation) <==> smooth && !linked)
      && (r == Failure(NothingWritten) <==> smooth && linked && l.ids == [])
  {
    ghost var t0 := db.table;
    var checked := CheckInput(db.table, l, given, finite);
    if checked.Failure? {
      return Failure(checked.error);
    }
    InsertWritesAll(t0, l, |l.ids|);
    r := LoadGpuVecs(db, l);
    if r.Failure? {
      return;
    }
    CountFiresExactly(t0, l, given, finite);
    var done := |Under(db.table, l.model)|;
    if done != |l.ids| {
      return Failure(WrongTotal(done));
    }
    DistinctIdsLoad(t0, l);
    r := Success(done);
  }

  /** The final count fires exactly when the accepted ids repeat one of themselves, given that nothing fails
      for reasons of its own. */
  lemma CountFiresExactly(t: Table, l: Load, given: Json, finite: Bytes -> bool)
    requires l.insert && Accepted(t, l, given, finite)
    ensures |Under(After(t, l, |l.ids|), l.model)| != |l.ids| <==> !NoDuplicates(l.ids)
  {
    RowsAfterLoad(t, l);
    KeysOfDistinct(l.ids, l.model);
  }
}
