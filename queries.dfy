/** src/sqlite_integrated/query.py: the `Query` builder. Each clause method checks that the
    clause on top of the history may precede it, pushes its own tag, optionally checks names
    against the attached database, and extends the SQL text; `run` hands the text to the engine
    and turns the rows it returns into records. */
module Queries {
  import opened Errors
  import opened Text
  import opened Data
  import opened Utils
  import opened Entries
  import opened Schema

  /** The tags `history` holds, one per clause method. */
  datatype Clause = SELECT | FROM | WHERE | LIKE | UPDATE | SET | INSERT_INTO | VALUES | DELETE_FROM

  /** The clause on top of a history; None when it is empty. */
  function TopOf(history: seq<Clause>): Option<Clause>
  {
    if |history| == 0 then None else Some(history[|history| - 1])
  }

  /** The list of legal predecessors each clause method passes to `valid_prefixes`. */
  function Predecessors(c: Clause): seq<Option<Clause>>
  {
    match c
    case SELECT => [None]
    case UPDATE => [None]
    case INSERT_INTO => [None]
    case DELETE_FROM => [None]
    case FROM => [Some(SELECT)]
    case WHERE => [Some(FROM), Some(SET), Some(DELETE_FROM)]
    case LIKE => [Some(WHERE)]
    case SET => [Some(UPDATE)]
    case VALUES => [Some(INSERT_INTO)]
  }

  /** The statement shapes the builder can produce: a history is well formed when it is a prefix
      of one of them. */
  predicate WellFormed(history: seq<Clause>)
  {
    history <= [SELECT, FROM, WHERE, LIKE] || history <= [UPDATE, SET, WHERE, LIKE]
    || history <= [INSERT_INTO, VALUES] || history <= [DELETE_FROM, WHERE, LIKE]
  }

  /** On a well-formed history, the prefix check admits a clause exactly when pushing it keeps
      the history well formed: the predecessor lists encode the four statement shapes. */
  lemma PrefixCheckIsShape(history: seq<Clause>, c: Clause)
    requires WellFormed(history)
    ensures TopOf(history) in Predecessors(c) <==> WellFormed(history + [c])
  {
    var h := history + [c];
    assert h[..|history|] == history;
    assert h[|history|] == c;
    if |history| == 0 {
    } else if |history| == 1 {
      assert history == [history[0]];
    } else if |history| == 2 {
      assert history == [history[0], history[1]];
    } else if |history| == 3 {
      assert history == [history[0], history[1], history[2]];
    } else {
      assert history == [SELECT, FROM, WHERE, LIKE] || history == [UPDATE, SET, WHERE, LIKE];
    }
  }

  /** What `self.fields` holds: None before any clause loaded it, the sentinel "*", or a list. */
  datatype Fields = NoFields | AllFields | Listed(names: seq<string>)

  /** `set(self.fields)` as the subset checks use it: TypeError for None, and the one-character
      string "*" as the set of its characters. */
  function AllowedNames(fields: Fields): Result<set<string>>
  {
    match fields
    case NoFields => Err(TypeError)
    case AllFields => Ok({"*"})
    case Listed(names) => Ok(NameSet(names))
  }

  /** The rows the engine returns for the statement, or the error it raises. */
  datatype Answer = Rows(rows: seq<seq<Value>>) | OperationalError | OtherEngineError

  /** What `run` returns: the raw rows, or one record per row. */
  datatype RunResult = RawRows(rows: seq<seq<Value>>) | Records(entries: seq<DatabaseEntry>)

  /** `get_column_names` of a table tag that may be None: None is never a table name, so it
      fails like a missing table. `run` uses it to replace "*". */
  function ColumnNamesOf(cat: Catalog, table: Option<string>): Result<seq<string>>
  {
    match table
    case None => Err(DatabaseError(NoSuchTable))
    case Some(t) => ColumnNames(cat, t)
  }

  /** The text `WHERE(colName, value)` appends: the bare column for the default "", `is null` for
      None, and otherwise an equality with the value's literal (TypeError if it has none). */
  function WhereText(colName: string, value: Value): Result<string>
  {
    if value == Text("") then Ok("WHERE " + colName + " ")
    else if value == Null then Ok("WHERE " + colName + " is null")
    else
      match SqlLiteral(value)
      case Ok(lit) => Ok("WHERE " + colName + " = " + lit)
      case Err(e) => Err(e)
  }

  /** The three forms of the clause: a bare column (or a whole condition) for the default "",
      `is null` for None, and an equality with the value's literal otherwise. */
  lemma WhereTextCases(colName: string, value: Value)
    ensures value == Text("") ==> WhereText(colName, value) == Ok("WHERE " + colName + " ")
    ensures value == Null ==> WhereText(colName, value) == Ok("WHERE " + colName + " is null")
    ensures value != Text("") && value != Null ==>
      (WhereText(colName, value).Ok? <==> SqlLiteral(value).Ok?)
      && (WhereText(colName, value).Err? ==> WhereText(colName, value).error == TypeError)
      && (WhereText(colName, value).Ok? ==> WhereText(colName, value).value == "WHERE " + colName + " = " + SqlLiteral(value).value)
  {
  }

  class Query {
    /** The attached database, if any. */
    const db: Option<Catalog>
    /** The SQL text built so far. */
    var sql: string
    /** The clause methods that got past their prefix check, oldest first. */
    var history: seq<Clause>
    var fields: Fields
    var table: Option<string>
    /** The column a bare WHERE named, expecting a LIKE to follow. */
    var col: Option<string>

    /** The history only ever follows one statement shape, and nothing is set before the first
        clause. */
    ghost predicate Valid()
      reads this
    {
      WellFormed(history)
      && (history == [] ==> sql == "" && fields == NoFields && table == None && col == None)
    }

    constructor (db: Option<Catalog>)
      ensures this.db == db && sql == "" && history == [] && fields == NoFields && table == None && col == None
      ensures Valid()
    {
      this.db := db;
      sql := "";
      history := [];
      fields := NoFields;
      table := None;
      col := None;
    }

    /** `valid_prefixes`: true when the clause on top of the history is in the list, QueryError
        otherwise. */
    function ValidPrefixes(prefixes: seq<Option<Clause>>): (r: Result<bool>)
      reads this
      ensures r.Ok? <==> (history == [] && None in prefixes) || (history != [] && Some(history[|history| - 1]) in prefixes)
      ensures r.Ok? ==> r.value
      ensures r.Err? ==> r.error == QueryError(BadPrefix)
    {
      if TopOf(history) in prefixes then Ok(true) else Err(QueryError(BadPrefix))
    }

    /** Pushes a tag that passed the prefix check. */
    method Push(c: Clause)
      requires Valid() && TopOf(history) in Predecessors(c)
      modifies this
      ensures history == old(history) + [c] && WellFormed(history)
      ensures sql == old(sql) && fields == old(fields) && table == old(table) && col == old(col)
    {
      PrefixCheckIsShape(history, c);
      history := history + [c];
    }

    /** `SELECT`: "*" keeps the sentinel, another string is split into names, a list is stored as
        given and joined by ", " in the text; any other value raises QueryError after the tag is
        pushed. */
    method Select(selection: FieldSpec) returns (r: Result<Query>)
      requires Valid()
      modifies this
      ensures Valid() && old(sql) <= sql
      ensures old(TopOf(history)) !in Predecessors(SELECT) ==> r == Err(QueryError(BadPrefix)) && unchanged(this)
      ensures old(TopOf(history)) in Predecessors(SELECT) ==>
        history == old(history) + [SELECT] && table == old(table) && col == old(col)
      ensures old(TopOf(history)) in Predecessors(SELECT) ==>
        match selection
        case CommaSeparated(s) =>
          r == Ok(this) && sql == old(sql) + "SELECT " + s + " "
          && fields == (if s == "*" then AllFields else Listed(StringToList(s)))
        case FieldList(names) =>
          r == Ok(this) && sql == old(sql) + "SELECT " + Join(", ", names) + " " && fields == Listed(names)
        case NotStrOrList =>
          r == Err(QueryError(BadSelection)) && sql == old(sql) && fields == old(fields)
    {
      var ok := ValidPrefixes(Predecessors(SELECT));
      if ok.Err? {
        return Err(ok.error);
      }
      Push(SELECT);
      match selection {
        case CommaSeparated(s) =>
          if s == "*" {
            fields := AllFields;
          } else {
            fields := Listed(StringToList(s));
          }
          sql := sql + "SELECT " + s + " ";
        case FieldList(names) =>
          fields := Listed(names);
          sql := sql + "SELECT " + Join(", ", names) + " ";
        case NotStrOrList =>
          return Err(QueryError(BadSelection));
      }
      return Ok(this);
    }

    /** `FROM`: records the table, then, with a database attached, fails if the table's columns
        cannot be read or a selected name is not one of them ("*" always passes); otherwise pushes
        the tag and appends the clause. */
    method From(tableName: string) returns (r: Result<Query>)
      requires Valid()
      modifies this
      ensures Valid() && old(sql) <= sql
      ensures old(TopOf(history)) !in Predecessors(FROM) ==> r == Err(QueryError(BadPrefix)) && unchanged(this)
      ensures old(TopOf(history)) in Predecessors(FROM) ==>
        table == Some(tableName) && fields == old(fields) && col == old(col)
      ensures old(TopOf(history)) in Predecessors(FROM) && db.Some? && ColumnNames(db.value, tableName).Err? ==>
        r == Err(ColumnNames(db.value, tableName).error) && history == old(history) && sql == old(sql)
      ensures (old(TopOf(history)) in Predecessors(FROM) && db.Some? && ColumnNames(db.value, tableName).Ok?
               && fields != AllFields) ==>
        var known := NameSet(ColumnNames(db.value, tableName).value);
        match AllowedNames(fields)
        case Err(e) => r == Err(e) && history == old(history) && sql == old(sql)
        case Ok(selected) =>
          selected <= known || (r == Err(QueryError(UnknownFields)) && history == old(history) && sql == old(sql))
      ensures old(TopOf(history)) in Predecessors(FROM) && r.Ok? ==>
        r.value == this && history == old(history) + [FROM] && sql == old(sql) + "FROM " + tableName + " "
      ensures old(TopOf(history)) in Predecessors(FROM) ==>
        (r.Ok? <==> (db.None? || (ColumnNames(db.value, tableName).Ok? && (fields == AllFields ||
          (AllowedNames(fields).Ok? && AllowedNames(fields).value <= NameSet(ColumnNames(db.value, tableName).value))))))
    {
      var ok := ValidPrefixes(Predecessors(FROM));
      if ok.Err? {
        return Err(ok.error);
      }
      table := Some(tableName);
      if db.Some? {
        var names := GetColumnNames(db.value, tableName);
        if names.Err? {
          return Err(names.error);
        }
        var tableFields := NameSet(names.value);
        if fields != AllFields {
          var selected := AllowedNames(fields);
          if selected.Err? {
            return Err(selected.error);
          }
          if !(selected.value <= tableFields) {
            return Err(QueryError(UnknownFields));
          }
        }
      }
      Push(FROM);
      sql := sql + "FROM " + tableName + " ";
      return Ok(this);
    }

    /** `WHERE`: with the default value "" the column text is appended as it is (a whole
        condition, or a column a LIKE will test, remembered without spaces); None renders
        `is null`; any other value renders `= <literal>`, whose TypeError comes after the push. */
    method Where(colName: string, value: Value) returns (r: Result<Query>)
      requires Valid()
      modifies this
      ensures Valid() && old(sql) <= sql
      ensures old(TopOf(history)) !in Predecessors(WHERE) ==> r == Err(QueryError(BadPrefix)) && unchanged(this)
      ensures old(TopOf(history)) in Predecessors(WHERE) ==>
        history == old(history) + [WHERE] && fields == old(fields) && table == old(table)
      ensures old(TopOf(history)) in Predecessors(WHERE) ==>
        col == (if value == Text("") && '=' !in colName then Some(Remove(colName, ' ')) else old(col))
      ensures old(TopOf(history)) in Predecessors(WHERE) ==>
        match WhereText(colName, value)
        case Ok(w) => r == Ok(this) && sql == old(sql) + w
        case Err(e) => r == Err(e) && sql == old(sql)
    {
      var ok := ValidPrefixes(Predecessors(WHERE));
      if ok.Err? {
        return Err(ok.error);
      }
      Push(WHERE);
      var w := WhereText(colName, value);
      if w.Err? {
        return Err(w.error);
      }
      sql := sql + w.value;
      if value == Text("") && '=' !in colName {
        col := Some(Remove(colName, ' '));
      }
      return Ok(this);
    }

    /** `LIKE`: appends the pattern as an SQL literal (a quoted string for a string pattern). */
    method Like(pattern: Value) returns (r: Result<Query>)
      requires Valid()
      modifies this
      ensures Valid() && old(sql) <= sql
      ensures old(TopOf(history)) !in Predecessors(LIKE) ==> r == Err(QueryError(BadPrefix)) && unchanged(this)
      ensures old(TopOf(history)) in Predecessors(LIKE) ==>
        history == old(history) + [LIKE] && fields == old(fields) && table == old(table) && col == old(col)
      ensures old(TopOf(history)) in Predecessors(LIKE) ==>
        match SqlLiteral(pattern)
        case Ok(lit) => r == Ok(this) && sql == old(sql) + "LIKE " + lit + " "
        case Err(e) => r == Err(e) && sql == old(sql)
      ensures old(TopOf(history)) in Predecessors(LIKE) && pattern.Text? ==>
        r == Ok(this) && sql == old(sql) + "LIKE " + QuoteString(pattern.s) + " "
    {
      var ok := ValidPrefixes(Predecessors(LIKE));
      if ok.Err? {
        return Err(ok.error);
      }
      Push(LIKE);
      var lit := SqlLiteral(pattern);
      if lit.Err? {
        return Err(lit.error);
      }
      sql := sql + "LIKE " + lit.value + " ";
      return Ok(this);
    }

    /** `UPDATE`: after the push, with a database attached, a missing table raises QueryError
        and the table's column names become the fields; then records the table and appends. */
    method Update(tableName: string) returns (r: Result<Query>)
      requires Valid()
      modifies this
      ensures Valid() && old(sql) <= sql
      ensures old(TopOf(history)) !in Predecessors(UPDATE) ==> r == Err(QueryError(BadPrefix)) && unchanged(this)
      ensures old(TopOf(history)) in Predecessors(UPDATE) ==> history == old(history) + [UPDATE] && col == old(col)
      ensures old(TopOf(history)) in Predecessors(UPDATE) && db.Some? && !IsTable(db.value, tableName) ==>
        r == Err(QueryError(NoSuchTable)) && sql == old(sql) && fields == old(fields) && table == old(table)
      ensures old(TopOf(history)) in Predecessors(UPDATE) && db.Some? && IsTable(db.value, tableName) ==>
        match ColumnNames(db.value, tableName)
        case Err(e) => r == Err(e) && sql == old(sql) && fields == old(fields) && table == old(table)
        case Ok(names) =>
          r == Ok(this) && fields == Listed(names) && table == Some(tableName) && sql == old(sql) + "UPDATE " + tableName + " "
      ensures old(TopOf(history)) in Predecessors(UPDATE) && db.None? ==>
        r == Ok(this) && fields == old(fields) && table == Some(tableName) && sql == old(sql) + "UPDATE " + tableName + " "
    {
      var ok := ValidPrefixes(Predecessors(UPDATE));
      if ok.Err? {
        return Err(ok.error);
      }
      Push(UPDATE);
      if db.Some? {
        if !IsTable(db.value, tableName) {
          return Err(QueryError(NoSuchTable));
        }
        var names := GetColumnNames(db.value, tableName);
        if names.Err? {
          return Err(names.error);
        }
        fields := Listed(names.value);
      }
      table := Some(tableName);
      sql := sql + "UPDATE " + tableName + " ";
      return Ok(this);
    }

    /** `SET`: after the push, every key must be one of the loaded fields (QueryError otherwise,
        TypeError when none were loaded); then appends the `k = v` list. */
    method Set(data: Dict) returns (r: Result<Query>)
      requires Valid()
      modifies this
      ensures Valid() && old(sql) <= sql
      ensures old(TopOf(history)) !in Predecessors(SET) ==> r == Err(QueryError(BadPrefix)) && unchanged(this)
      ensures old(TopOf(history)) in Predecessors(SET) ==>
        history == old(history) + [SET] && fields == old(fields) && table == old(table) && col == old(col)
      ensures old(TopOf(history)) in Predecessors(SET) ==>
        match AllowedNames(fields)
        case Err(e) => r == Err(e) && sql == old(sql)
        case Ok(allowed) =>
          if !(KeySet(data) <= allowed) then r == Err(QueryError(UnknownFields)) && sql == old(sql)
          else match AssignmentText(data)
            case Err(e) => r == Err(e) && sql == old(sql)
            case Ok(text) => r == Ok(this) && sql == old(sql) + "SET " + text + " "
    {
      var ok := ValidPrefixes(Predecessors(SET));
      if ok.Err? {
        return Err(ok.error);
      }
      Push(SET);
      var allowed := AllowedNames(fields);
      if allowed.Err? {
        return Err(allowed.error);
      }
      if !(KeySet(data) <= allowed.value) {
        return Err(QueryError(UnknownFields));
      }
      var text := DictToSql(data);
      if text.Err? {
        return Err(text.error);
      }
      sql := sql + "SET " + text.value + " ";
      return Ok(this);
    }

    /** `INSERT_INTO`: after the push, records the table and, with a database attached, loads its
        column names as the fields (failing like `get_column_names`); then appends. */
    method InsertInto(tableName: string) returns (r: Result<Query>)
      requires Valid()
      modifies this
      ensures Valid() && old(sql) <= sql
      ensures old(TopOf(history)) !in Predecessors(INSERT_INTO) ==> r == Err(QueryError(BadPrefix)) && unchanged(this)
      ensures old(TopOf(history)) in Predecessors(INSERT_INTO) ==>
        history == old(history) + [INSERT_INTO] && table == Some(tableName) && col == old(col)
      ensures old(TopOf(history)) in Predecessors(INSERT_INTO) && db.Some? ==>
        match ColumnNames(db.value, tableName)
        case Err(e) => r == Err(e) && sql == old(sql) && fields == old(fields)
        case Ok(names) => r == Ok(this) && fields == Listed(names) && sql == old(sql) + "INSERT INTO " + tableName + " "
      ensures old(TopOf(history)) in Predecessors(INSERT_INTO) && db.None? ==>
        r == Ok(this) && fields == old(fields) && sql == old(sql) + "INSERT INTO " + tableName + " "
    {
      var ok := ValidPrefixes(Predecessors(INSERT_INTO));
      if ok.Err? {
        return Err(ok.error);
      }
      Push(INSERT_INTO);
      table := Some(tableName);
      if db.Some? {
        var names := GetColumnNames(db.value, tableName);
        if names.Err? {
          return Err(names.error);
        }
        fields := Listed(names.value);
      }
      sql := sql + "INSERT INTO " + tableName + " ";
      return Ok(this);
    }

    /** `VALUES`: after the push, every key must be one of the loaded fields; then appends the
        key list and the literal list, both in the dict's key order. */
    method Values(data: Dict) returns (r: Result<Query>)
      requires Valid()
      modifies this
      ensures Valid() && old(sql) <= sql
      ensures old(TopOf(history)) !in Predecessors(VALUES) ==> r == Err(QueryError(BadPrefix)) && unchanged(this)
      ensures old(TopOf(history)) in Predecessors(VALUES) ==>
        history == old(history) + [VALUES] && fields == old(fields) && table == old(table) && col == old(col)
      ensures old(TopOf(history)) in Predecessors(VALUES) ==>
        match AllowedNames(fields)
        case Err(e) => r == Err(e) && sql == old(sql)
        case Ok(allowed) =>
          if !(KeySet(data) <= allowed) then r == Err(QueryError(UnknownFields)) && sql == old(sql)
          else match Literals(Vals(data))
            case Err(e) => r == Err(e) && sql == old(sql)
            case Ok(lits) =>
              r == Ok(this) && sql == old(sql) + "(" + Join(", ", Keys(data)) + ") VALUES (" + Join(", ", lits) + ") "
    {
      var ok := ValidPrefixes(Predecessors(VALUES));
      if ok.Err? {
        return Err(ok.error);
      }
      Push(VALUES);
      var allowed := AllowedNames(fields);
      if allowed.Err? {
        return Err(allowed.error);
      }
      if !(KeySet(data) <= allowed.value) {
        return Err(QueryError(UnknownFields));
      }
      var lits := Literals(Vals(data));
      if lits.Err? {
        return Err(lits.error);
      }
      sql := sql + "(" + Join(", ", Keys(data)) + ") VALUES (" + Join(", ", lits.value) + ") ";
      return Ok(this);
    }

    /** `DELETE_FROM`: after the push, with a database attached, a missing table raises
        QueryError; otherwise records the table and sets the text (it is empty before the first
        clause, so this also extends it). */
    method DeleteFrom(tableName: string) returns (r: Result<Query>)
      requires Valid()
      modifies this
      ensures Valid() && old(sql) <= sql
      ensures old(TopOf(history)) !in Predecessors(DELETE_FROM) ==> r == Err(QueryError(BadPrefix)) && unchanged(this)
      ensures old(TopOf(history)) in Predecessors(DELETE_FROM) ==>
        history == old(history) + [DELETE_FROM] && fields == old(fields) && col == old(col)
      ensures old(TopOf(history)) in Predecessors(DELETE_FROM) && db.Some? && !IsTable(db.value, tableName) ==>
        r == Err(QueryError(NoSuchTable)) && sql == old(sql) && table == old(table)
      ensures old(TopOf(history)) in Predecessors(DELETE_FROM) && (db.None? || IsTable(db.value, tableName)) ==>
        r == Ok(this) && table == Some(tableName) && sql == "DELETE FROM " + tableName + " "
    {
      var ok := ValidPrefixes(Predecessors(DELETE_FROM));
      if ok.Err? {
        return Err(ok.error);
      }
      Push(DELETE_FROM);
      if db.Some? && !IsTable(db.value, tableName) {
        return Err(QueryError(NoSuchTable));
      }
      table := Some(tableName);
      sql := "DELETE FROM " + tableName + " ";
      return Ok(this);
    }
    /** `run`: executes the text on the given database, or else the attached one, failing with
        QueryError when there is neither. `answer` is what the engine does with the text. Raw
        rows are returned as they are; otherwise "*" is first replaced by the table's column
        names and every row becomes a record of the query's table. */
    method Run(runDb: Option<Catalog>, raw: bool, answer: Answer) returns (r: Result<RunResult>)
      requires Valid()
      modifies this
      ensures Valid()
      ensures sql == old(sql) && history == old(history) && table == old(table) && col == old(col)
      ensures runDb.None? && db.None? ==> r == Err(QueryError(NoDatabase)) && fields == old(fields)
      ensures (runDb.Some? || db.Some?) && answer.OperationalError? ==>
        r == Err(DatabaseError(ExecutionFailed)) && fields == old(fields)
      ensures (runDb.Some? || db.Some?) && answer.OtherEngineError? ==> r == Err(EngineError) && fields == old(fields)
      ensures (runDb.Some? || db.Some?) && answer.Rows? && raw ==> r == Ok(RawRows(answer.rows)) && fields == old(fields)
      ensures (runDb.Some? || db.Some?) && answer.Rows? && !raw && old(fields) != AllFields ==> fields == old(fields)
      ensures (runDb.Some? || db.Some?) && answer.Rows? && !raw && old(fields) == AllFields ==>
        var target := if runDb.Some? then runDb.value else db.value;
        match ColumnNamesOf(target, table)
        case Err(e) => r == Err(e) && fields == old(fields)
        case Ok(names) => fields == Listed(names)
      ensures r.Ok? && r.value.Records? ==> answer.Rows? && !raw && fields != AllFields
      ensures r.Ok? && r.value.Records? && |answer.rows| == 0 ==> r.value.entries == []
      ensures (runDb.Some? || db.Some?) && answer.Rows? && !raw && |answer.rows| == 0 && fields != AllFields ==>
        r == Ok(Records([]))
      ensures (runDb.Some? || db.Some?) && answer.Rows? && !raw && |answer.rows| > 0 && fields.NoFields? ==>
        r == Err(TypeError)
      ensures (runDb.Some? || db.Some?) && answer.Rows? && !raw && |answer.rows| > 0 && fields.Listed? ==>
        var rows := answer.rows;
        var names := fields.names;
        (r.Ok? <==> |rows[0]| == |names| && forall i :: 0 <= i < |rows| ==> |names| <= |rows[i]|)
        && (|rows[0]| != |names| ==> r == Err(NameError))
        && (r.Err? && |rows[0]| == |names| ==> r == Err(IndexError))
        && (r.Ok? ==> (r.value.Records? && |r.value.entries| == |rows|
                       && forall i :: 0 <= i < |rows| ==>
                         (fresh(r.value.entries[i]) && r.value.entries[i].table == table
                          && r.value.entries[i].data == RowDict(names, rows[i]))))
    {
      var target := runDb;
      if target.None? {
        target := db;
      }
      if target.None? {
        return Err(QueryError(NoDatabase));
      }
      match answer {
        case OperationalError => return Err(DatabaseError(ExecutionFailed));
        case OtherEngineError => return Err(EngineError);
        case Rows(rows) =>
          if raw {
            return Ok(RawRows(rows));
          }
          if fields == AllFields {
            var names := ColumnNamesOf(target.value, table);
            if names.Err? {
              return Err(names.error);
            }
            fields := Listed(names.value);
          }
          if |rows| == 0 {
            return Ok(Records([]));
          }
          if fields.NoFields? {
            return Err(TypeError);
          }
          var entries := RawTableToTable(rows, fields.names, table);
          if entries.Err? {
            return Err(entries.error);
          }
          return Ok(Records(entries.value));
      }
    }
  }

  /** The text the builder produces for `SELECT().FROM("customers").WHERE("CustomerId", 1)`: the
      shape tests/test_database.py runs against its customers table. */
  method SelectWhereExample() returns (text: string, history: seq<Clause>)
    ensures text == "SELECT * FROM customers WHERE CustomerId = 1"
    ensures history == [SELECT, FROM, WHERE]
  {
    var q := new Query(None);
    var a := q.Select(CommaSeparated("*"));
    var b := q.From("customers");
    WhereIdOne(q);
    text, history := q.sql, q.history;
  }

  /** The WHERE step of the example above: an integer value renders as its numeral. */
  method WhereIdOne(q: Query)
    requires q.Valid() && q.history == [SELECT, FROM] && q.sql == "SELECT * FROM customers "
    modifies q
    ensures q.history == [SELECT, FROM, WHERE] && q.sql == "SELECT * FROM customers WHERE CustomerId = 1"
  {
    LiteralOne();
    assert WhereText("CustomerId", Int(1)) == Ok("WHERE " + "CustomerId" + " = " + "1");
    assert TopOf(q.history) == Some(FROM);
    ghost var sql0 := q.sql;
    var c := q.Where("CustomerId", Int(1));
    assert q.sql == sql0 + "WHERE " + "CustomerId" + " = " + "1";
  }

  /** The integer 1 renders as the numeral "1". */
  lemma LiteralOne()
    ensures SqlLiteral(Int(1)) == Ok("1")
  {
    assert NatToDecimal(1) == "1";
  }

  /** A clause out of order is refused and leaves the query as it was. */
  method OutOfOrderExample() returns (r: Result<Query>, text: string)
    ensures r == Err(QueryError(BadPrefix)) && text == ""
  {
    var q := new Query(None);
    r := q.Where("CustomerId", Int(1));
    text := q.sql;
  }
}
