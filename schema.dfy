/** The schema side of src/sqlite_integrated/database.py: the `ForeignKey` and `Column`
    dataclasses, and what the `Database` reads back about a table's columns through
    `PRAGMA table_info` and `PRAGMA foreign_key_list`. The database engine is replaced by a
    catalog holding, per table, exactly the rows those two pragmas return. */
module Schema {
  import opened Errors
  import opened Text
  import opened Data

  predicate EndsWith(s: string, t: string)
  {
    |t| <= |s| && s[|s| - |t|..] == t
  }

  // ---------------------------------------------------------------------------------------
  // ForeignKey

  /** The `ForeignKey` dataclass; every field after `toCol` is optional, and `toCol` itself is
      None when the pragma reports a reference to the parent's primary key without a column. */
  datatype ForeignKey = ForeignKey(
    table: string,
    toCol: Option<string>,
    fromCol: Option<string>,
    id: Option<int>,
    seqNo: Option<int>,
    onUpdate: Option<string>,
    onDelete: Option<string>,
    matchRule: Option<string>)

  /** The reference clause every foreign key starts with. */
  function FkHead(fk: ForeignKey): string
  {
    "FOREIGN KEY (" + NameStr(fk.fromCol) + ") REFERENCES " + fk.table + " (" + NameStr(fk.toCol) + ")"
  }

  /** `ForeignKey.to_sql`: the reference clause, then ` ON UPDATE` and ` ON DELETE` for the
      actions that are set (a non-empty string). */
  function ForeignKeyToSql(fk: ForeignKey): (r: string)
    ensures FkHead(fk) <= r
    ensures r == FkHead(fk) <==> !NameTruthy(fk.onUpdate) && !NameTruthy(fk.onDelete)
    ensures NameTruthy(fk.onUpdate) ==> FkHead(fk) + " ON UPDATE " + fk.onUpdate.value <= r
    ensures NameTruthy(fk.onDelete) ==> EndsWith(r, " ON DELETE " + fk.onDelete.value)
    ensures NameTruthy(fk.onUpdate) && !NameTruthy(fk.onDelete) ==>
      r == FkHead(fk) + " ON UPDATE " + fk.onUpdate.value
    ensures !NameTruthy(fk.onUpdate) && NameTruthy(fk.onDelete) ==>
      r == FkHead(fk) + " ON DELETE " + fk.onDelete.value
    ensures NameTruthy(fk.onUpdate) && NameTruthy(fk.onDelete) ==>
      r == FkHead(fk) + " ON UPDATE " + fk.onUpdate.value + " ON DELETE " + fk.onDelete.value
  {
    var rep := FkHead(fk);
    var rep := if NameTruthy(fk.onUpdate) then rep + " ON UPDATE " + fk.onUpdate.value else rep;
    var rep := if NameTruthy(fk.onDelete) then rep + " ON DELETE " + fk.onDelete.value else rep;
    rep
  }

  // ---------------------------------------------------------------------------------------
  // Column

  /** The `Column` class. `notNull` is the truthiness of the constraint (None and False alike). */
  datatype Column = Column(
    name: string,
    declType: string,
    notNull: bool,
    defaultValue: Value,
    primaryKey: bool,
    colId: Option<int>,
    foreignKey: Option<ForeignKey>)

  /** A type name that passes the primary-key check. */
  predicate IsIntegerType(declType: string)
  {
    Upper(declType) == "INTEGER"
  }

  /** `Column.__init__`: a primary-key column must have a type that upper-cases to INTEGER, else
      DatabaseError; a foreign key handed in gets the column's name as its `from_col`. */
  function NewColumn(name: string, declType: string, notNull: bool, defaultValue: Value,
                     primaryKey: bool, colId: Option<int>, foreignKey: Option<ForeignKey>): (r: Result<Column>)
    ensures r.Err? <==> primaryKey && !IsIntegerType(declType)
    ensures r.Err? ==> r.error == DatabaseError(PrimaryKeyType)
    ensures r.Ok? ==> (r.value.name == name && r.value.declType == declType && r.value.notNull == notNull
      && r.value.defaultValue == defaultValue && r.value.primaryKey == primaryKey && r.value.colId == colId)
    ensures r.Ok? ==> r.value.foreignKey.Some? == foreignKey.Some?
    ensures r.Ok? && foreignKey.Some? ==> r.value.foreignKey == Some(foreignKey.value.(fromCol := Some(name)))
  {
    if primaryKey && Upper(declType) != "INTEGER" then Err(DatabaseError(PrimaryKeyType))
    else
      var fk := match foreignKey
        case Some(k) => Some(k.(fromCol := Some(name)))
        case None => None;
      Ok(Column(name, declType, notNull, defaultValue, primaryKey, colId, fk))
  }

  /** The check is a case-insensitive comparison with "integer": exactly the seven-letter
      spellings mixing upper and lower case pass. */
  lemma {:induction false} IntegerTypeSpellings(declType: string)
    ensures IsIntegerType(declType) <==>
      |declType| == 7 && forall i :: 0 <= i < 7 ==> declType[i] == "INTEGER"[i] || declType[i] == "integer"[i]
  {
    var u := Upper(declType);
    if |declType| == 7 {
      forall i | 0 <= i < 7
        ensures u[i] == "INTEGER"[i] <==> declType[i] == "INTEGER"[i] || declType[i] == "integer"[i]
      {
        assert u[i] == UpperChar(declType[i]);
      }
      if forall i :: 0 <= i < 7 ==> u[i] == "INTEGER"[i] {
        assert u == "INTEGER";
      }
    }
  }

  /** "integer" and "INTEGER" are accepted for a primary key; "int", "INT" and "text" are not. */
  lemma PrimaryKeyTypeExamples()
    ensures NewColumn("name", "integer", false, Null, true, None, None).Ok?
    ensures NewColumn("name", "INTEGER", false, Null, true, None, None).Ok?
    ensures NewColumn("name", "int", false, Null, true, None, None) == Err(DatabaseError(PrimaryKeyType))
    ensures NewColumn("name", "INT", false, Null, true, None, None) == Err(DatabaseError(PrimaryKeyType))
    ensures NewColumn("name", "text", false, Null, true, None, None) == Err(DatabaseError(PrimaryKeyType))
  {
    IntegerTypeSpellings("integer");
    IntegerTypeSpellings("INTEGER");
    IntegerTypeSpellings("int");
    IntegerTypeSpellings("INT");
    IntegerTypeSpellings("text");
  }

  // ---------------------------------------------------------------------------------------
  // The catalog

  /** A row of `PRAGMA table_info`: cid, name, type, notnull, dflt_value, pk. */
  datatype ColumnInfo = ColumnInfo(cid: int, name: string, declType: string, notNull: int, dflt: Value, pk: int)

  /** A row of `PRAGMA foreign_key_list`: id, seq, table, from, to, on_update, on_delete, match.
      `to` is NULL for a `REFERENCES parent` clause written without a column list. */
  datatype ForeignKeyInfo = ForeignKeyInfo(
    id: int, seqNo: int, table: string, fromCol: string, toCol: Option<string>,
    onUpdate: string, onDelete: string, matchRule: string)

  datatype TableMeta = TableMeta(columns: seq<ColumnInfo>, foreignKeys: seq<ForeignKeyInfo>)

  /** The tables of a database, by name. */
  datatype Catalog = Catalog(tables: map<string, TableMeta>)

  /** `is_table`. */
  predicate IsTable(cat: Catalog, name: string)
  {
    name in cat.tables
  }

  /** What `PRAGMA table_info(name)` returns: no rows for a table that does not exist. */
  function TableInfo(cat: Catalog, name: string): seq<ColumnInfo>
  {
    if name in cat.tables then cat.tables[name].columns else []
  }

  /** What `PRAGMA foreign_key_list(name)` returns. */
  function ForeignKeyList(cat: Catalog, name: string): seq<ForeignKeyInfo>
  {
    if name in cat.tables then cat.tables[name].foreignKeys else []
  }

  // ---------------------------------------------------------------------------------------
  // get_table_cols

  /** The `Column` built from one `table_info` row: primary key iff pk is 1, NOT NULL iff notnull
      is 1; DatabaseError when the row is a primary key of a non-INTEGER type. */
  function DecodeColumn(info: ColumnInfo): Result<Column>
  {
    NewColumn(info.name, info.declType, info.notNull == 1, info.dflt, info.pk == 1, Some(info.cid), None)
  }

  /** The `ForeignKey` built from one `foreign_key_list` row. */
  function ToForeignKey(info: ForeignKeyInfo): ForeignKey
  {
    ForeignKey(info.table, info.toCol, Some(info.fromCol), Some(info.id), Some(info.seqNo),
               Some(info.onUpdate), Some(info.onDelete), Some(info.matchRule))
  }

  /** The columns of the first `n` rows, or the error of the first row that fails. */
  function DecodeColumns(infos: seq<ColumnInfo>, n: nat): (r: Result<seq<Column>>)
    requires n <= |infos|
    ensures r.Ok? <==> forall i :: 0 <= i < n ==> DecodeColumn(infos[i]).Ok?
    ensures r.Err? ==> r.error == DatabaseError(PrimaryKeyType)
    ensures r.Ok? ==> |r.value| == n && forall i :: 0 <= i < n ==> r.value[i] == DecodeColumn(infos[i]).value
  {
    if n == 0 then Ok([])
    else
      match DecodeColumns(infos, n - 1)
      case Err(e) => Err(e)
      case Ok(cols) =>
        match DecodeColumn(infos[n - 1])
        case Err(e) => Err(e)
        case Ok(c) => Ok(cols + [c])
  }

  /** The index of the first column called `name`. */
  function FirstNamed(cols: seq<Column>, name: string): (r: Option<nat>)
    ensures r.Some? ==> r.value < |cols|
  {
    if |cols| == 0 then None
    else if cols[0].name == name then Some(0)
    else
      match FirstNamed(cols[1..], name)
      case None => None
      case Some(i) => Some(i + 1)
  }

  /** The first column named like the key's `from` column gets the key; without one, nothing. */
  function Attach(cols: seq<Column>, fk: ForeignKey): (r: seq<Column>)
    ensures |r| == |cols|
  {
    match FirstNamed(cols, NameStr(fk.fromCol))
    case None => cols
    case Some(n) => cols[n := cols[n].(foreignKey := Some(fk))]
  }

  /** The columns after the first `k` foreign-key rows have been attached, in order. */
  function AttachAll(cols: seq<Column>, fks: seq<ForeignKeyInfo>, k: nat): (r: seq<Column>)
    requires k <= |fks|
    ensures |r| == |cols|
  {
    if k == 0 then cols else Attach(AttachAll(cols, fks, k - 1), ToForeignKey(fks[k - 1]))
  }

  /** `get_table_cols`, as a specification: the decoded columns with the foreign keys attached. */
  function TableCols(cat: Catalog, name: string): Result<seq<Column>>
  {
    var infos := TableInfo(cat, name);
    match DecodeColumns(infos, |infos|)
    case Err(e) => Err(e)
    case Ok(cols) =>
      var fks := ForeignKeyList(cat, name);
      Ok(AttachAll(cols, fks, |fks|))
  }

  /** `get_table_cols`: one pass building a `Column` per `table_info` row, then one pass per
      foreign key looking for the first column with its `from` name. */
  method GetTableCols(cat: Catalog, name: string) returns (r: Result<seq<Column>>)
    ensures r == TableCols(cat, name)
  {
    var infos := TableInfo(cat, name);
    var cols: seq<Column> := [];
    var i := 0;
    while i < |infos|
      invariant 0 <= i <= |infos|
      invariant DecodeColumns(infos, i) == Ok(cols)
    {
      var info := infos[i];
      var col := NewColumn(info.name, info.declType, info.notNull == 1, info.dflt, info.pk == 1, Some(info.cid), None);
      if col.Err? {
        return Err(col.error);
      }
      cols := cols + [col.value];
      i := i + 1;
    }
    ghost var decoded := cols;
    var fks := ForeignKeyList(cat, name);
    var k := 0;
    while k < |fks|
      invariant 0 <= k <= |fks|
      invariant cols == AttachAll(decoded, fks, k)
    {
      var fk := ToForeignKey(fks[k]);
      var n := 0;
      while n < |cols| && cols[n].name != NameStr(fk.fromCol)
        invariant 0 <= n <= |cols|
        invariant forall j :: 0 <= j < n ==> cols[j].name != NameStr(fk.fromCol)
      {
        n := n + 1;
      }
      if n < |cols| {
        FirstNamedFound(cols, NameStr(fk.fromCol), n);
        cols := cols[n := cols[n].(foreignKey := Some(fk))];
      } else {
        FirstNamedMissing(cols, NameStr(fk.fromCol));
      }
      k := k + 1;
    }
    return Ok(cols);
  }

  /** `FirstNamed` finds the first column carrying the name, and None when no column does. */
  lemma {:induction false} FirstNamedMeaning(cols: seq<Column>, name: string)
    ensures FirstNamed(cols, name).Some? ==>
      var n := FirstNamed(cols, name).value;
      cols[n].name == name && forall j :: 0 <= j < n ==> cols[j].name != name
    ensures FirstNamed(cols, name).None? ==> forall j :: 0 <= j < |cols| ==> cols[j].name != name
  {
    if |cols| > 0 && cols[0].name != name {
      FirstNamedMeaning(cols[1..], name);
      assert forall j :: 1 <= j < |cols| ==> cols[j] == cols[1..][j - 1];
    }
  }

  lemma {:induction false} FirstNamedFound(cols: seq<Column>, name: string, n: nat)
    requires n < |cols| && cols[n].name == name
    requires forall j :: 0 <= j < n ==> cols[j].name != name
    ensures FirstNamed(cols, name) == Some(n)
  {
    if n > 0 {
      assert cols[1..][n - 1] == cols[n];
      FirstNamedFound(cols[1..], name, n - 1);
    }
  }

  lemma {:induction false} FirstNamedMissing(cols: seq<Column>, name: string)
    requires forall j :: 0 <= j < |cols| ==> cols[j].name != name
    ensures FirstNamed(cols, name) == None
  {
    if |cols| > 0 {
      FirstNamedMissing(cols[1..], name);
    }
  }

  /** Attaching keys changes nothing but the `foreignKey` fields. */
  lemma {:induction false} AttachAllKeeps(cols: seq<Column>, fks: seq<ForeignKeyInfo>, k: nat)
    requires k <= |fks|
    ensures |AttachAll(cols, fks, k)| == |cols|
    ensures forall i :: 0 <= i < |cols| ==>
      AttachAll(cols, fks, k)[i] == cols[i].(foreignKey := AttachAll(cols, fks, k)[i].foreignKey)
  {
    if k > 0 {
      AttachAllKeeps(cols, fks, k - 1);
    }
  }

  /** What attaching one key does at one index. */
  lemma AttachAt(cols: seq<Column>, fk: ForeignKey, i: nat)
    requires i < |cols|
    ensures Attach(cols, fk)[i] ==
      if FirstNamed(cols, NameStr(fk.fromCol)) == Some(i) then cols[i].(foreignKey := Some(fk)) else cols[i]
  {
  }

  /** The first-named search only looks at names. */
  lemma {:induction false} FirstNamedByNames(a: seq<Column>, b: seq<Column>, name: string)
    requires |a| == |b| && forall i :: 0 <= i < |a| ==> a[i].name == b[i].name
    ensures FirstNamed(a, name) == FirstNamed(b, name)
  {
    if |a| > 0 && a[0].name != name {
      FirstNamedByNames(a[1..], b[1..], name);
    }
  }

  /** The search on the columns with keys attached gives what it gives on the bare columns. */
  lemma AttachAllFirstNamed(cols: seq<Column>, fks: seq<ForeignKeyInfo>, k: nat, name: string)
    requires k <= |fks|
    ensures FirstNamed(AttachAll(cols, fks, k), name) == FirstNamed(cols, name)
  {
    AttachAllKeeps(cols, fks, k);
    FirstNamedByNames(AttachAll(cols, fks, k), cols, name);
  }

  /** A column that no key row names first keeps the key it had. */
  lemma {:induction false} AttachAllUntouched(cols: seq<Column>, fks: seq<ForeignKeyInfo>, k: nat, i: nat)
    requires k <= |fks| && i < |cols|
    requires forall j :: 0 <= j < k ==> FirstNamed(cols, fks[j].fromCol) != Some(i)
    ensures AttachAll(cols, fks, k)[i] == cols[i]
  {
    if k > 0 {
      var prev := AttachAll(cols, fks, k - 1);
      var fk := ToForeignKey(fks[k - 1]);
      var x := fks[k - 1].fromCol;
      assert FirstNamed(cols, x) != Some(i);
      AttachAllUntouched(cols, fks, k - 1, i);
      AttachAllFirstNamed(cols, fks, k - 1, x);
      assert FirstNamed(prev, NameStr(fk.fromCol)) != Some(i);
      AttachAt(prev, fk, i);
      assert Attach(prev, fk)[i] == prev[i];
      assert AttachAll(cols, fks, k) == Attach(prev, fk);
    }
  }

  /** A column ends up with the last key row whose `from` name it is the first column to carry:
      a later key for the same column overwrites an earlier one. */
  lemma {:induction false} AttachAllLast(cols: seq<Column>, fks: seq<ForeignKeyInfo>, k: nat, i: nat, j: nat)
    requires k <= |fks| && i < |cols| && j < k
    requires FirstNamed(cols, fks[j].fromCol) == Some(i)
    requires forall j' :: j < j' < k ==> FirstNamed(cols, fks[j'].fromCol) != Some(i)
    ensures AttachAll(cols, fks, k)[i].foreignKey == Some(ToForeignKey(fks[j]))
  {
    var prev := AttachAll(cols, fks, k - 1);
    AttachAllFirstNamed(cols, fks, k - 1, fks[k - 1].fromCol);
    AttachAt(prev, ToForeignKey(fks[k - 1]), i);
    if j < k - 1 {
      AttachAllLast(cols, fks, k - 1, i, j);
    }
  }

  /** One column per `table_info` row, in order, carrying that row's name, type, default and id,
      a primary key exactly when pk is 1 and NOT NULL exactly when notnull is 1. */
  lemma TableColsDecoded(cat: Catalog, name: string)
    requires TableCols(cat, name).Ok?
    ensures |TableCols(cat, name).value| == |TableInfo(cat, name)|
    ensures forall i :: 0 <= i < |TableInfo(cat, name)| ==>
      var c := TableCols(cat, name).value[i];
      var info := TableInfo(cat, name)[i];
      c.name == info.name && c.declType == info.declType && c.defaultValue == info.dflt
      && c.colId == Some(info.cid) && (c.primaryKey <==> info.pk == 1) && (c.notNull <==> info.notNull == 1)
  {
    var infos := TableInfo(cat, name);
    var fks := ForeignKeyList(cat, name);
    AttachAllKeeps(DecodeColumns(infos, |infos|).value, fks, |fks|);
  }

  /** Reading a table's columns fails exactly when some primary-key row has a type other than
      INTEGER, and then with DatabaseError. */
  lemma TableColsFails(cat: Catalog, name: string)
    ensures TableCols(cat, name).Ok? <==>
      forall i :: 0 <= i < |TableInfo(cat, name)| ==>
        TableInfo(cat, name)[i].pk == 1 ==> IsIntegerType(TableInfo(cat, name)[i].declType)
    ensures TableCols(cat, name).Err? ==> TableCols(cat, name).error == DatabaseError(PrimaryKeyType)
  {
  }

  /** Each foreign-key row lands on the first column with its `from` name, a later row for the
      same column replacing an earlier one; a column no row names first has no key. */
  lemma TableColsForeignKeys(cat: Catalog, name: string, i: nat)
    requires TableCols(cat, name).Ok? && i < |TableInfo(cat, name)|
    ensures var cs := TableCols(cat, name).value;
      var fks := ForeignKeyList(cat, name);
      i < |cs| &&
      ((forall j :: 0 <= j < |fks| ==> FirstNamed(cs, fks[j].fromCol) != Some(i)) ==> cs[i].foreignKey.None?) &&
      (forall j :: 0 <= j < |fks| && FirstNamed(cs, fks[j].fromCol) == Some(i)
        && (forall j' :: j < j' < |fks| ==> FirstNamed(cs, fks[j'].fromCol) != Some(i))
        ==> cs[i].foreignKey == Some(ToForeignKey(fks[j])))
  {
    var infos := TableInfo(cat, name);
    var fks := ForeignKeyList(cat, name);
    var cols := DecodeColumns(infos, |infos|).value;
    var cs := TableCols(cat, name).value;
    AttachAllKeeps(cols, fks, |fks|);
    forall x: string
      ensures FirstNamed(cs, x) == FirstNamed(cols, x)
    {
      AttachAllFirstNamed(cols, fks, |fks|, x);
    }
    if forall j :: 0 <= j < |fks| ==> FirstNamed(cs, fks[j].fromCol) != Some(i) {
      AttachAllUntouched(cols, fks, |fks|, i);
    }
    forall j | 0 <= j < |fks| && FirstNamed(cs, fks[j].fromCol) == Some(i)
        && (forall j' :: j < j' < |fks| ==> FirstNamed(cs, fks[j'].fromCol) != Some(i))
      ensures cs[i].foreignKey == Some(ToForeignKey(fks[j]))
    {
      AttachAllLast(cols, fks, |fks|, i, j);
    }
  }

  // ---------------------------------------------------------------------------------------
  // get_column_names, is_column

  /** The names of a column list, in order. */
  function Names(cols: seq<Column>): (r: seq<string>)
    ensures |r| == |cols| && forall i :: 0 <= i < |cols| ==> r[i] == cols[i].name
  {
    seq(|cols|, i requires 0 <= i < |cols| => cols[i].name)
  }

  /** `get_column_names`, as a specification: DatabaseError for a missing table, otherwise the
      names of the columns `get_table_cols` reads (which may itself fail). */
  function ColumnNames(cat: Catalog, name: string): Result<seq<string>>
  {
    if !IsTable(cat, name) then Err(DatabaseError(NoSuchTable))
    else
      match TableCols(cat, name)
      case Err(e) => Err(e)
      case Ok(cols) => Ok(Names(cols))
  }

  /** A table's column names are the names of its `table_info` rows, in order; the lookup fails
      for a missing table and for a table whose columns cannot be read. */
  lemma ColumnNamesMeaning(cat: Catalog, name: string)
    ensures !IsTable(cat, name) ==> ColumnNames(cat, name) == Err(DatabaseError(NoSuchTable))
    ensures IsTable(cat, name) ==> (ColumnNames(cat, name).Ok? <==> TableCols(cat, name).Ok?)
    ensures ColumnNames(cat, name).Ok? ==>
      var ns := ColumnNames(cat, name).value;
      |ns| == |TableInfo(cat, name)| && forall i :: 0 <= i < |ns| ==> ns[i] == TableInfo(cat, name)[i].name
  {
    if ColumnNames(cat, name).Ok? {
      TableColsDecoded(cat, name);
    }
  }

  /** `get_column_names`: checks the table exists, then collects the column names one by one. */
  method GetColumnNames(cat: Catalog, name: string) returns (r: Result<seq<string>>)
    ensures r == ColumnNames(cat, name)
  {
    if !IsTable(cat, name) {
      return Err(DatabaseError(NoSuchTable));
    }
    var cols := GetTableCols(cat, name);
    if cols.Err? {
      return Err(cols.error);
    }
    var names: seq<string> := [];
    var i := 0;
    while i < |cols.value|
      invariant 0 <= i <= |cols.value| && |names| == i
      invariant forall j :: 0 <= j < i ==> names[j] == cols.value[j].name
    {
      names := names + [cols.value[i].name];
      i := i + 1;
    }
    assert names == Names(cols.value);
    return Ok(names);
  }

  /** `is_column`: whether some column of the table has the name; the lookup's errors pass through. */
  function IsColumn(cat: Catalog, table: string, col: string): (r: Result<bool>)
    ensures r.Err? <==> ColumnNames(cat, table).Err?
    ensures r.Err? ==> r.error == ColumnNames(cat, table).error
    ensures r.Ok? ==> (r.value <==> exists i :: 0 <= i < |TableInfo(cat, table)| && TableInfo(cat, table)[i].name == col)
  {
    ColumnNamesMeaning(cat, table);
    match ColumnNames(cat, table)
    case Err(e) => Err(e)
    case Ok(names) => Ok(col in names)
  }

  // ---------------------------------------------------------------------------------------
  // get_table_id_field

  /** The index of the first primary-key column. */
  function FirstPrimaryKey(cols: seq<Column>): (r: Option<nat>)
    ensures r.Some? ==> r.value < |cols|
  {
    if |cols| == 0 then None
    else if cols[0].primaryKey then Some(0)
    else
      match FirstPrimaryKey(cols[1..])
      case None => None
      case Some(i) => Some(i + 1)
  }

  /** `FirstPrimaryKey` finds the first primary-key column, and None when there is none. */
  lemma {:induction false} FirstPrimaryKeyMeaning(cols: seq<Column>)
    ensures FirstPrimaryKey(cols).Some? ==>
      var n := FirstPrimaryKey(cols).value;
      cols[n].primaryKey && forall j :: 0 <= j < n ==> !cols[j].primaryKey
    ensures FirstPrimaryKey(cols).None? ==> forall j :: 0 <= j < |cols| ==> !cols[j].primaryKey
  {
    if |cols| > 0 && !cols[0].primaryKey {
      FirstPrimaryKeyMeaning(cols[1..]);
      assert forall j :: 1 <= j < |cols| ==> cols[j] == cols[1..][j - 1];
    }
  }

  /** `get_table_id_field`, as a specification: the name of the first primary-key column; with
      none, None, or DatabaseError when `doError` is set. */
  function IdField(cat: Catalog, table: string, doError: bool): Result<Option<string>>
  {
    match TableCols(cat, table)
    case Err(e) => Err(e)
    case Ok(cols) =>
      match FirstPrimaryKey(cols)
      case Some(i) => Ok(Some(cols[i].name))
      case None => if doError then Err(DatabaseError(NoIdField)) else Ok(None)
  }

  /** `get_table_id_field`: scans the columns and returns at the first primary key. */
  method GetTableIdField(cat: Catalog, table: string, doError: bool) returns (r: Result<Option<string>>)
    ensures r == IdField(cat, table, doError)
  {
    var cols := GetTableCols(cat, table);
    if cols.Err? {
      return Err(cols.error);
    }
    var i := 0;
    while i < |cols.value|
      invariant 0 <= i <= |cols.value|
      invariant forall j :: 0 <= j < i ==> !cols.value[j].primaryKey
    {
      if cols.value[i].primaryKey {
        FirstPrimaryKeyFound(cols.value, i);
        return Ok(Some(cols.value[i].name));
      }
      i := i + 1;
    }
    FirstPrimaryKeyMissing(cols.value);
    if doError {
      return Err(DatabaseError(NoIdField));
    }
    return Ok(None);
  }

  lemma {:induction false} FirstPrimaryKeyFound(cols: seq<Column>, n: nat)
    requires n < |cols| && cols[n].primaryKey
    requires forall j :: 0 <= j < n ==> !cols[j].primaryKey
    ensures FirstPrimaryKey(cols) == Some(n)
  {
    if n > 0 {
      assert cols[1..][n - 1] == cols[n];
      FirstPrimaryKeyFound(cols[1..], n - 1);
    }
  }

  lemma {:induction false} FirstPrimaryKeyMissing(cols: seq<Column>)
    requires forall j :: 0 <= j < |cols| ==> !cols[j].primaryKey
    ensures FirstPrimaryKey(cols) == None
  {
    if |cols| > 0 {
      FirstPrimaryKeyMissing(cols[1..]);
    }
  }

  /** The id field is the name of the first `table_info` row with pk = 1, whose type is then
      INTEGER; a table without one (including a missing table, whose pragma has no rows) gives
      None, or DatabaseError when `doError` is set. */
  lemma IdFieldMeaning(cat: Catalog, table: string, doError: bool)
    requires TableCols(cat, table).Ok?
    ensures var infos := TableInfo(cat, table);
      match IdField(cat, table, doError)
      case Ok(Some(n)) =>
        exists i :: (0 <= i < |infos| && infos[i].name == n && infos[i].pk == 1
          && IsIntegerType(infos[i].declType) && forall j :: 0 <= j < i ==> infos[j].pk != 1)
      case Ok(None) => !doError && forall i :: 0 <= i < |infos| ==> infos[i].pk != 1
      case Err(e) => doError && e == DatabaseError(NoIdField) && forall i :: 0 <= i < |infos| ==> infos[i].pk != 1
  {
    var infos := TableInfo(cat, table);
    var cols := TableCols(cat, table).value;
    TableColsDecoded(cat, table);
    FirstPrimaryKeyMeaning(cols);
    TableColsFails(cat, table);
    match FirstPrimaryKey(cols)
    case Some(i) =>
      assert infos[i].pk == 1;
    case None =>
  }
}
