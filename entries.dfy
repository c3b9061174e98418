/** src/sqlite_integrated/entry.py — a record that remembers its table — and the row decoding of
    `raw_table_to_table` in src/sqlite_integrated/utils.py, which builds such records. */
module Entries {
  import opened Errors
  import opened Data
  import opened Utils

  /** A `dict` subclass carrying the name of the table it belongs to. The name is whatever the
      caller passed, so it may be None (a query run without a table). */
  class DatabaseEntry {
    const table: Option<string>
    var data: Dict

    /** Tags the record and copies `entryDict` into the (empty) dict. */
    constructor (entryDict: Dict, table: Option<string>)
      ensures this.table == table && data == entryDict
    {
      this.table := table;
      data := entryDict;
    }
  }

  /** The dict `for n, field in enumerate(fields): entry[field] = row[n]` builds, as a
      specification: each field in turn stored with the value at its position. */
  function RowDict(fields: seq<string>, row: seq<Value>): Dict
    requires |fields| <= |row|
  {
    Filled(fields, row, |fields|)
  }

  /** The dict after the first `n` fields have been stored. */
  function Filled(fields: seq<string>, row: seq<Value>, n: nat): Dict
    requires n <= |fields| && n <= |row|
  {
    if n == 0 then [] else Put(Filled(fields, row, n - 1), fields[n - 1], row[n - 1])
  }

  /** The keys of a decoded row are exactly the field names. */
  lemma RowDictKeys(fields: seq<string>, row: seq<Value>)
    requires |fields| <= |row|
    ensures KeySet(RowDict(fields, row)) == NameSet(fields)
  {
    FilledKeys(fields, row, |fields|);
    assert fields[..|fields|] == fields;
  }

  lemma {:induction false} FilledKeys(fields: seq<string>, row: seq<Value>, n: nat)
    requires n <= |fields| && n <= |row|
    ensures KeySet(Filled(fields, row, n)) == NameSet(fields[..n])
  {
    if n == 0 {
      assert fields[..0] == [];
    } else {
      FilledKeys(fields, row, n - 1);
      FilledStep(fields, row, n);
      NameSetSnoc(fields, n);
    }
  }

  /** Storing the n-th field adds exactly its name to the keys. */
  lemma FilledStep(fields: seq<string>, row: seq<Value>, n: nat)
    requires 0 < n <= |fields| && n <= |row|
    ensures KeySet(Filled(fields, row, n)) == KeySet(Filled(fields, row, n - 1)) + {fields[n - 1]}
  {
    PutKeys(Filled(fields, row, n - 1), fields[n - 1], row[n - 1]);
  }

  /** A field maps to the value at its last position: a repeated name keeps the later value. */
  lemma RowDictLookup(fields: seq<string>, row: seq<Value>, i: nat)
    requires |fields| <= |row| && i < |fields|
    requires forall j :: i < j < |fields| ==> fields[j] != fields[i]
    ensures Lookup(RowDict(fields, row), fields[i]) == Some(row[i])
  {
    FilledLookup(fields, row, |fields|, i);
  }

  lemma {:induction false} FilledLookup(fields: seq<string>, row: seq<Value>, n: nat, i: nat)
    requires n <= |fields| && n <= |row| && i < n
    requires forall j :: i < j < n ==> fields[j] != fields[i]
    ensures Lookup(Filled(fields, row, n), fields[i]) == Some(row[i])
  {
    var d := Filled(fields, row, n - 1);
    assert Filled(fields, row, n) == Put(d, fields[n - 1], row[n - 1]);
    LookupPut(d, fields[n - 1], row[n - 1], fields[i]);
    if i < n - 1 {
      FilledLookup(fields, row, n - 1, i);
    }
  }

  /** With distinct field names the record is the fields zipped with the row. */
  lemma RowDictZip(fields: seq<string>, row: seq<Value>)
    requires |fields| <= |row| && DistinctNames(fields)
    ensures |RowDict(fields, row)| == |fields|
    ensures forall i :: 0 <= i < |fields| ==> RowDict(fields, row)[i] == (fields[i], row[i])
  {
    FilledZip(fields, row, |fields|);
  }

  lemma {:induction false} FilledZip(fields: seq<string>, row: seq<Value>, n: nat)
    requires n <= |fields| && n <= |row| && DistinctNames(fields)
    ensures |Filled(fields, row, n)| == n
    ensures forall i :: 0 <= i < n ==> Filled(fields, row, n)[i] == (fields[i], row[i])
  {
    if n > 0 {
      var d := Filled(fields, row, n - 1);
      FilledZip(fields, row, n - 1);
      assert fields[n - 1] !in KeySet(d) by {
        forall k | k in KeySet(d)
          ensures k != fields[n - 1]
        {
          var j := IndexOf(d, k);
          assert d[j] == (fields[j], row[j]);
        }
      }
      var r := d + [(fields[n - 1], row[n - 1])];
      assert Filled(fields, row, n) == r;
      forall i | 0 <= i < n
        ensures r[i] == (fields[i], row[i])
      {
        if i < n - 1 {
          assert r[i] == d[i];
        }
      }
    }
  }

  /** Reading a decoded row's values back in field order reproduces the row. */
  lemma RowDictReadBack(fields: seq<string>, row: seq<Value>)
    requires |fields| == |row| && DistinctNames(fields)
    ensures Keys(RowDict(fields, row)) == fields
    ensures Vals(RowDict(fields, row)) == row
  {
    RowDictZip(fields, row);
  }

  /** The loop that fills one record: positional values stored under the field names, or
      IndexError when the row is shorter than the field list. */
  method ZipRow(fields: seq<string>, row: seq<Value>) returns (r: Result<Dict>)
    ensures r.Ok? <==> |fields| <= |row|
    ensures r.Err? ==> r.error == IndexError
    ensures r.Ok? ==> r.value == RowDict(fields, row)
  {
    var entry: Dict := [];
    var n := 0;
    while n < |fields|
      invariant 0 <= n <= |fields| && n <= |row|
      invariant entry == Filled(fields, row, n)
    {
      if n >= |row| {
        return Err(IndexError);
      }
      entry := Put(entry, fields[n], row[n]);
      n := n + 1;
    }
    return Ok(entry);
  }

  /** `DatabaseEntry.from_raw_entry`: a string field specification is split into names, any other
      non-list raises ValueError, a row whose width differs from the number of names raises
      DatabaseError, and otherwise the row is zipped with the names and tagged `tableName`. */
  method FromRawEntry(raw: seq<Value>, tableFields: FieldSpec, tableName: string) returns (r: Result<DatabaseEntry>)
    ensures r.Err? <==> tableFields.NotStrOrList? || |raw| != |SpecFields(tableFields).value|
    ensures tableFields.NotStrOrList? ==> r == Err(ValueError)
    ensures !tableFields.NotStrOrList? && r.Err? ==> r.error == DatabaseError(WidthMismatch)
    ensures r.Ok? ==> fresh(r.value) && r.value.table == Some(tableName)
    ensures r.Ok? ==> r.value.data == RowDict(SpecFields(tableFields).value, raw)
  {
    var fields: seq<string>;
    match tableFields {
      case CommaSeparated(t) => fields := StringToList(t);
      case FieldList(names) => fields := names;
      case NotStrOrList => return Err(ValueError);
    }
    if |raw| != |fields| {
      return Err(DatabaseError(WidthMismatch));
    }
    var entryDict := ZipRow(fields, raw);
    var entry := new DatabaseEntry(entryDict.value, Some(tableName));
    return Ok(entry);
  }

  /** `raw_table_to_table`: no rows give no records; a first row whose width differs from the
      number of fields fails (the code names an exception it never imported, so the failure is a
      NameError); only the first row is checked, so a later shorter row fails with IndexError and
      a later longer one is cut to the fields. One record per row, in row order, each tagged
      `tableName`. */
  method RawTableToTable(rawTable: seq<seq<Value>>, fields: seq<string>, tableName: Option<string>)
    returns (r: Result<seq<DatabaseEntry>>)
    ensures |rawTable| == 0 ==> r == Ok([])
    ensures |rawTable| > 0 && |rawTable[0]| != |fields| ==> r == Err(NameError)
    ensures r.Ok? <==> (|rawTable| == 0 ||
      (|rawTable[0]| == |fields| && forall i :: 0 <= i < |rawTable| ==> |fields| <= |rawTable[i]|))
    ensures r.Err? && |rawTable[0]| == |fields| ==> r.error == IndexError
    ensures r.Ok? ==> |r.value| == |rawTable|
    ensures r.Ok? ==> forall i :: 0 <= i < |rawTable| ==>
      fresh(r.value[i]) && r.value[i].table == tableName && r.value[i].data == RowDict(fields, rawTable[i])
  {
    if |rawTable| == 0 {
      return Ok([]);
    }
    if |rawTable[0]| != |fields| {
      return Err(NameError);
    }
    var entries: seq<DatabaseEntry> := [];
    var i := 0;
    while i < |rawTable|
      invariant 0 <= i <= |rawTable| && |entries| == i
      invariant forall j :: 0 <= j < i ==> |fields| <= |rawTable[j]|
      invariant forall j :: 0 <= j < i ==> fresh(entries[j]) && entries[j].table == tableName
      invariant forall j :: 0 <= j < i ==> entries[j].data == RowDict(fields, rawTable[j])
    {
      var entry := ZipRow(fields, rawTable[i]);
      if entry.Err? {
        return Err(entry.error);
      }
      var e := new DatabaseEntry(entry.value, tableName);
      entries := entries + [e];
      i := i + 1;
    }
    return Ok(entries);
  }

  /** One row decoded on its own gives the record the same row becomes when its whole table is
      decoded: same tag, same contents. */
  method DecodeBothWays(rows: seq<seq<Value>>, names: seq<string>, t: string, i: nat)
    returns (one: Result<DatabaseEntry>, all: Result<seq<DatabaseEntry>>)
    requires i < |rows|
    ensures all.Ok? && |rows[i]| == |names| ==>
      one.Ok? && |all.value| == |rows| && one.value.table == all.value[i].table && one.value.data == all.value[i].data
  {
    one := FromRawEntry(rows[i], FieldList(names), t);
    all := RawTableToTable(rows, names, Some(t));
  }
}
