/** The role-mapping table (external role name -> local role id), its schema,
    and the role-mapping service: full-replace save and full read, in the
    three versions of the source (current, older, bundled). */
module RoleMappingService {
  import opened Common

  /** A row of the role-mapping content type. */
  datatype Row = Row(keycloakRole: string, strapiRole: int)

  /** `Object.entries(mappings)` of the saved object, in insertion order. */
  type Entries = seq<(string, int)>

  /** The schema's length constraint on `keycloakRole`. */
  predicate KeyLengthOk(k: string)
  {
    3 <= |k| <= 100
  }

  predicate HasKey(rows: seq<Row>, k: string)
  {
    exists i :: 0 <= i < |rows| && rows[i].keycloakRole == k
  }

  /** Every row meets the schema: key of 3 to 100 characters, keys unique. */
  predicate SchemaValid(rows: seq<Row>)
  {
    && (forall i :: 0 <= i < |rows| ==> KeyLengthOk(rows[i].keycloakRole))
    && (forall i, j :: 0 <= i < j < |rows| ==> rows[i].keycloakRole != rows[j].keycloakRole)
  }

  /** The keys of a JavaScript object are distinct. */
  predicate DistinctKeys(e: Entries)
  {
    forall i, j :: 0 <= i < j < |e| ==> e[i].0 != e[j].0
  }

  /** The rows `{ keycloakRole, strapiRole }` built from the entries, in entry order. */
  function RowsOf(e: Entries): seq<Row>
  {
    seq(|e|, i requires 0 <= i < |e| => Row(e[i].0, e[i].1))
  }

  /** Number of leading entries whose key the schema accepts. */
  function ValidPrefixLength(e: Entries): (n: nat)
    ensures n <= |e|
    ensures forall j :: 0 <= j < n ==> KeyLengthOk(e[j].0)
    ensures n < |e| ==> !KeyLengthOk(e[n].0)
  {
    if |e| == 0 || !KeyLengthOk(e[0].0) then 0 else 1 + ValidPrefixLength(e[1..])
  }

  /** The rows of a JavaScript object are schema-valid exactly when all its keys have valid length. */
  lemma RowsOfValid(e: Entries, n: nat)
    requires DistinctKeys(e) && n <= |e|
    ensures SchemaValid(RowsOf(e[..n])) <==> forall j :: 0 <= j < n ==> KeyLengthOk(e[j].0)
  {
    var rows := RowsOf(e[..n]);
    assert forall j :: 0 <= j < n ==> rows[j].keycloakRole == e[j].0;
  }

  /** A storage failure raised by the table, or an insert the schema refuses. */
  datatype StoreError = Unavailable(cause: JsError) | SchemaViolation(key: string)

  /** The persisted role-mapping table. `fault` is `Some(e)` while the storage
      layer fails every call with `e`. */
  class MappingTable {
    var rows: seq<Row>
    var fault: Option<JsError>

    ghost predicate Valid()
      reads this
    {
      SchemaValid(rows)
    }

    /** What a full read returns. */
    function ReadAll(): Result<seq<Row>, JsError>
      reads this
    {
      if fault.Some? then Err(fault.value) else Ok(rows)
    }

    constructor (rows: seq<Row>, fault: Option<JsError>)
      requires SchemaValid(rows)
      ensures Valid() && this.rows == rows && this.fault == fault
    {
      this.rows := rows;
      this.fault := fault;
    }

    /** `deleteMany` with an empty filter (or one matching every id). */
    method DeleteAll() returns (res: Outcome<StoreError>)
      requires Valid()
      modifies this`rows
      ensures Valid()
      ensures old(fault).Some? ==> res == Fail(Unavailable(fault.value)) && rows == old(rows)
      ensures old(fault).None? ==> res == Pass && rows == []
    {
      if fault.Some? {
        return Fail(Unavailable(fault.value));
      }
      rows := [];
      return Pass;
    }

    /** `create` of one row: refused when the table would break the schema. */
    method Create(r: Row) returns (res: Outcome<StoreError>)
      requires Valid()
      modifies this`rows
      ensures Valid()
      ensures fault.Some? ==> res == Fail(Unavailable(fault.value)) && rows == old(rows)
      ensures fault.None? && SchemaValid(old(rows) + [r]) ==> res == Pass && rows == old(rows) + [r]
      ensures fault.None? && !SchemaValid(old(rows) + [r]) ==> res == Fail(SchemaViolation(r.keycloakRole)) && rows == old(rows)
    {
      if fault.Some? {
        return Fail(Unavailable(fault.value));
      }
      if !SchemaValid(rows + [r]) {
        return Fail(SchemaViolation(r.keycloakRole));
      }
      rows := rows + [r];
      return Pass;
    }

    /** `createMany` of a batch: one insert statement, all rows or none. */
    method CreateMany(batch: seq<Row>) returns (res: Outcome<StoreError>)
      requires Valid()
      modifies this`rows
      ensures Valid()
      ensures fault.Some? ==> res == Fail(Unavailable(fault.value)) && rows == old(rows)
      ensures fault.None? && SchemaValid(old(rows) + batch) ==> res == Pass && rows == old(rows) + batch
      ensures fault.None? && !SchemaValid(old(rows) + batch) ==> res.Fail? && res.error.SchemaViolation? && rows == old(rows)
    {
      if fault.Some? {
        return Fail(Unavailable(fault.value));
      }
      if !SchemaValid(rows + batch) {
        return Fail(SchemaViolation(if |batch| > 0 then batch[0].keycloakRole else ""));
      }
      rows := rows + batch;
      return Pass;
    }

    /** `findOne` by `keycloakRole`. */
    method FindByKey(k: string) returns (res: Result<Option<Row>, StoreError>)
      requires Valid()
      ensures fault.Some? ==> res == Err(Unavailable(fault.value))
      ensures fault.None? ==> res.Ok? && (res.value.Some? <==> HasKey(rows, k))
      ensures fault.None? && res.value.Some? ==> res.value.value in rows && res.value.value.keycloakRole == k
    {
      if fault.Some? {
        return Err(Unavailable(fault.value));
      }
      if HasKey(rows, k) {
        var i :| 0 <= i < |rows| && rows[i].keycloakRole == k;
        return Ok(Some(rows[i]));
      }
      return Ok(None);
    }
  }

  /** What a save leaves in the table when storage is available: the rows of
      the leading entries the schema accepts; nothing for an `undefined` object. */
  function SavedRows(mappings: Option<Entries>): seq<Row>
  {
    if mappings.None? then [] else RowsOf(mappings.value[..ValidPrefixLength(mappings.value)])
  }

  /** The save inserts every entry. */
  predicate SaveCompletes(mappings: Option<Entries>)
  {
    mappings.Some? && ValidPrefixLength(mappings.value) == |mappings.value|
  }

  const SaveFailedMessage := "Failed to save role mappings."
  const RetrieveFailedMessage := "Failed to retrieve role mappings."

  /** Current `saveMappings`: delete every row, then insert one row per entry
      with sequential `create` calls, no transaction; any failure becomes
      `Error('Failed to save role mappings.')`. */
  method SaveMappingsCurrent(table: MappingTable, mappings: Option<Entries>) returns (res: Outcome<JsError>)
    requires table.Valid()
    requires mappings.Some? ==> DistinctKeys(mappings.value)
    modifies table`rows
    ensures table.Valid()
    ensures old(table.fault).Some? ==> res == Fail(Error(SaveFailedMessage)) && table.rows == old(table.rows)
    ensures old(table.fault).None? ==> table.rows == SavedRows(mappings)
    ensures old(table.fault).None? ==> (res == Pass <==> SaveCompletes(mappings))
    ensures res.Fail? ==> res == Fail(Error(SaveFailedMessage))
  {
    var deleted := table.DeleteAll();
    if deleted.Fail? {
      return Fail(Error(SaveFailedMessage));
    }
    if mappings.None? {
      // Object.entries(undefined) throws a TypeError after the delete
      return Fail(Error(SaveFailedMessage));
    }
    var entries := mappings.value;
    var i := 0;
    while i < |entries|
      invariant 0 <= i <= |entries|
      invariant table.Valid() && table.fault.None?
      invariant forall j :: 0 <= j < i ==> KeyLengthOk(entries[j].0)
      invariant table.rows == RowsOf(entries[..i])
    {
      assert RowsOf(entries[..i]) + [Row(entries[i].0, entries[i].1)] == RowsOf(entries[..i + 1]);
      RowsOfValid(entries, i + 1);
      var created := table.Create(Row(entries[i].0, entries[i].1));
      if created.Fail? {
        return Fail(Error(SaveFailedMessage));
      }
      i := i + 1;
    }
    assert entries[..i] == entries;
    return Pass;
  }

  /** Why an older `saveMappings` failed: the storage error itself, or the
      TypeError of `Object.entries(undefined)`. */
  datatype SaveFailure = StoreFailed(e: StoreError) | EntriesOfUndefined

  /** Older `saveMappings`: `deleteMany()`, then sequential `create` calls;
      errors propagate unwrapped and leave the partial state in place. */
  method SaveMappingsLegacy(table: MappingTable, mappings: Option<Entries>) returns (res: Outcome<SaveFailure>)
    requires table.Valid()
    requires mappings.Some? ==> DistinctKeys(mappings.value)
    modifies table`rows
    ensures table.Valid()
    ensures old(table.fault).Some? ==> res == Fail(StoreFailed(Unavailable(old(table.fault).value))) && table.rows == old(table.rows)
    ensures old(table.fault).None? ==> table.rows == SavedRows(mappings)
    ensures old(table.fault).None? ==> (res == Pass <==> SaveCompletes(mappings))
    ensures old(table.fault).None? && mappings.None? ==> res == Fail(EntriesOfUndefined)
    ensures old(table.fault).None? && mappings.Some? && res.Fail? ==>
              res.error == StoreFailed(SchemaViolation(mappings.value[ValidPrefixLength(mappings.value)].0))
  {
    var deleted := table.DeleteAll();
    if deleted.Fail? {
      return Fail(StoreFailed(deleted.error));
    }
    if mappings.None? {
      return Fail(EntriesOfUndefined);
    }
    var entries := mappings.value;
    var i := 0;
    while i < |entries|
      invariant 0 <= i <= |entries|
      invariant table.Valid() && table.fault.None?
      invariant forall j :: 0 <= j < i ==> KeyLengthOk(entries[j].0)
      invariant table.rows == RowsOf(entries[..i])
    {
      assert RowsOf(entries[..i]) + [Row(entries[i].0, entries[i].1)] == RowsOf(entries[..i + 1]);
      RowsOfValid(entries, i + 1);
      var created := table.Create(Row(entries[i].0, entries[i].1));
      if created.Fail? {
        return Fail(StoreFailed(created.error));
      }
      i := i + 1;
    }
    assert entries[..i] == entries;
    return Pass;
  }

  /** Bundled `saveMappings`: delete every row, then one `createMany` of all
      entries; a failure leaves the table empty. */
  method SaveMappingsBundled(table: MappingTable, mappings: Option<Entries>) returns (res: Outcome<JsError>)
    requires table.Valid()
    requires mappings.Some? ==> DistinctKeys(mappings.value)
    modifies table`rows
    ensures table.Valid()
    ensures old(table.fault).Some? ==> res == Fail(Error(SaveFailedMessage)) && table.rows == old(table.rows)
    ensures old(table.fault).None? ==> table.rows == if SaveCompletes(mappings) then RowsOf(mappings.value) else []
    ensures old(table.fault).None? ==> (res == Pass <==> SaveCompletes(mappings))
    ensures res.Fail? ==> res == Fail(Error(SaveFailedMessage))
  {
    var deleted := table.DeleteAll();
    if deleted.Fail? {
      return Fail(Error(SaveFailedMessage));
    }
    if mappings.None? {
      return Fail(Error(SaveFailedMessage));
    }
    var entries := mappings.value;
    RowsOfValid(entries, |entries|);
    assert entries[..|entries|] == entries;
    assert [] + RowsOf(entries) == RowsOf(entries);
    var created := table.CreateMany(RowsOf(entries));
    if created.Fail? {
      return Fail(Error(SaveFailedMessage));
    }
    return Pass;
  }

  /** Current `getMappings`: every row; a failure becomes
      `Error('Failed to retrieve role mappings.')`. */
  method GetMappingsCurrent(table: MappingTable) returns (res: Result<seq<Row>, JsError>)
    ensures table.fault.None? ==> res == Ok(table.rows)
    ensures table.fault.Some? ==> res == Err(Error(RetrieveFailedMessage))
  {
    if table.fault.Some? {
      return Err(Error(RetrieveFailedMessage));
    }
    return Ok(table.rows);
  }

  /** Older `getMappings`: every row; a storage error propagates as it is. */
  method GetMappingsLegacy(table: MappingTable) returns (res: Result<seq<Row>, JsError>)
    ensures res == table.ReadAll()
  {
    if table.fault.Some? {
      return Err(table.fault.value);
    }
    return Ok(table.rows);
  }

  /** Saving the same object twice leaves what saving it once leaves, with
      the same outcome: the rows written do not depend on the rows before. */
  method SaveTwiceIsSaveOnce(table: MappingTable, mappings: Option<Entries>)
    returns (first: Outcome<JsError>, second: Outcome<JsError>)
    requires table.Valid()
    requires mappings.Some? ==> DistinctKeys(mappings.value)
    modifies table`rows
    ensures table.Valid()
    ensures old(table.fault).None? ==> table.rows == SavedRows(mappings) && first == second
    ensures old(table.fault).Some? ==> table.rows == old(table.rows) && first == second
  {
    first := SaveMappingsCurrent(table, mappings);
    var once := table.rows;
    second := SaveMappingsCurrent(table, mappings);
    assert table.rows == once;
  }

  /** A save that completes leaves exactly the saved entries, in entry order,
      whatever the table held before; `{}` leaves the table empty. */
  lemma SaveReplacesTable(e: Entries)
    requires DistinctKeys(e)
    ensures SaveCompletes(Some(e)) <==> forall j :: 0 <= j < |e| ==> KeyLengthOk(e[j].0)
    ensures SaveCompletes(Some(e)) ==> SavedRows(Some(e)) == RowsOf(e) && SchemaValid(RowsOf(e))
    ensures SavedRows(Some([])) == []
  {
    assert e[..|e|] == e;
    RowsOfValid(e, |e|);
  }

  /** A save that stops part-way keeps the rows inserted before the refused
      entry, and nothing of what the table held before. */
  lemma PartialSaveKeepsPrefix(e: Entries)
    requires DistinctKeys(e) && !SaveCompletes(Some(e))
    ensures var n := ValidPrefixLength(e);
      n < |e| && !KeyLengthOk(e[n].0) && SavedRows(Some(e)) == RowsOf(e)[..n]
  {
    var n := ValidPrefixLength(e);
    var saved, prefix := RowsOf(e[..n]), RowsOf(e)[..n];
    assert |saved| == n == |prefix|;
    forall k | 0 <= k < n ensures saved[k] == prefix[k] {
      assert saved[k] == Row(e[k].0, e[k].1);
    }
  }
}
