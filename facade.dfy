/** The `Database` operations of src/sqlite_integrated/database.py that build SQL text or check
    records before handing them to the engine. The engine is not modelled: each operation takes
    the catalog it would read and what the engine answers, and reports the text it sends. */
module Facade {
  import opened Errors
  import opened Text
  import opened Data
  import opened Utils
  import opened Entries
  import opened Schema
  import opened Queries

  /** The success value of an operation that returns Python's `None`. */
  datatype Done = Done

  // ---------------------------------------------------------------------------------------
  // create_table

  /** The definition line of one column: its quoted name, its type, then the optional
      constraints, a default only when the default value is truthy. */
  function ColumnDef(col: Column): string
  {
    Repr(Text(col.name)) + " " + col.declType
    + (if col.primaryKey then " PRIMARY KEY" else "")
    + (if col.notNull then " NOT NULL" else "")
    + (if Truthy(col.defaultValue) then " DEFAULT " + Repr(col.defaultValue) else "")
  }

  /** The three parts of a column line. */
  function ColumnHead(col: Column): string
  {
    Repr(Text(col.name)) + " " + col.declType
  }

  function ColumnFlags(col: Column): string
  {
    (if col.primaryKey then " PRIMARY KEY" else "") + (if col.notNull then " NOT NULL" else "")
  }

  function ColumnDefault(col: Column): string
  {
    if Truthy(col.defaultValue) then " DEFAULT " + Repr(col.defaultValue) else ""
  }

  /** The table constraint for one foreign key, with its actions on lines of their own. */
  function ForeignKeyDef(fk: ForeignKey): string
  {
    "FOREIGN KEY(" + NameStr(fk.fromCol) + ") REFERENCES " + fk.table + "(" + NameStr(fk.toCol) + ")"
    + (if NameTruthy(fk.onUpdate) then "\nON UPDATE " + fk.onUpdate.value else "")
    + (if NameTruthy(fk.onDelete) then "\nON DELETE " + fk.onDelete.value else "")
  }

  /** The foreign keys of the first `n` columns, in column order. */
  function ForeignKeysOf(cols: seq<Column>, n: nat): seq<ForeignKey>
    requires n <= |cols|
  {
    if n == 0 then []
    else ForeignKeysOf(cols, n - 1) + (if cols[n - 1].foreignKey.Some? then [cols[n - 1].foreignKey.value] else [])
  }

  /** The definitions of the first `n` columns, in order. */
  function ColumnDefs(cols: seq<Column>, n: nat): (r: seq<string>)
    requires n <= |cols|
    ensures |r| == n
  {
    if n == 0 then [] else ColumnDefs(cols, n - 1) + [ColumnDef(cols[n - 1])]
  }

  /** The constraints of the first `n` foreign keys, in order. */
  function ForeignKeyDefs(fks: seq<ForeignKey>, n: nat): seq<string>
    requires n <= |fks|
  {
    if n == 0 then [] else ForeignKeyDefs(fks, n - 1) + [ForeignKeyDef(fks[n - 1])]
  }

  /** The statement `create_table` sends: the column definitions and then the foreign-key
      constraints, separated by ",\n" inside "(\n" and "\n)". With no columns the opening
      "(\n" is what the final trim removes. */
  function CreateTableSql(name: string, cols: seq<Column>): string
  {
    var fks := ForeignKeysOf(cols, |cols|);
    var items := ColumnDefs(cols, |cols|) + ForeignKeyDefs(fks, |fks|);
    if items == [] then "CREATE TABLE " + name + " " + "\n)"
    else "CREATE TABLE " + name + " (\n" + Join(",\n", items) + "\n)"
  }

  /** Every item followed by ",\n". */
  function Terminated(items: seq<string>): string
  {
    if |items| == 0 then "" else Terminated(items[..|items| - 1]) + items[|items| - 1] + ",\n"
  }

  lemma TerminatedSnoc(items: seq<string>, x: string)
    ensures Terminated(items + [x]) == Terminated(items) + x + ",\n"
  {
    assert (items + [x])[..|items|] == items;
  }

  /** Dropping the last separator of the terminated items gives their join. */
  lemma {:induction false} TerminatedJoin(items: seq<string>)
    requires items != []
    ensures Terminated(items) == Join(",\n", items) + ",\n"
    decreases |items|
  {
    var init := items[..|items| - 1];
    var last := items[|items| - 1];
    assert items == init + [last];
    if init == [] {
      assert items == [last];
    } else {
      TerminatedJoin(init);
      JoinSnoc(",\n", init, last);
    }
  }

  lemma Regroup(a: string, b: string, c: string, d: string)
    ensures a + b + c + d == a + (b + c + d)
  {
  }

  /** Removing the two characters just appended. */
  lemma DropTerminator(a: string)
    ensures (a + ",\n")[..|a + ",\n"| - 2] == a
  {
    assert (a + ",\n")[..|a|] == a;
  }

  /** `create_table`'s text: one pass appends each column's definition and collects its foreign
      key, a second pass appends each constraint and, for each action, trims the last ",\n" and
      appends the action line; the final trim closes the list. */
  method CreateTable(name: string, cols: seq<Column>) returns (sent: string)
    ensures sent == CreateTableSql(name, cols)
    ensures cols == [] ==> sent == "CREATE TABLE " + name + " \n)"
  {
    var header := "CREATE TABLE " + name + " (\n";
    var sql := header;
    var foreignKeys: seq<ForeignKey> := [];
    for i := 0 to |cols|
      invariant sql == header + Terminated(ColumnDefs(cols, i))
      invariant foreignKeys == ForeignKeysOf(cols, i)
    {
      var col := cols[i];
      var line := ColumnLine(col);
      if col.foreignKey.Some? {
        foreignKeys := foreignKeys + [col.foreignKey.value];
      }
      ghost var before := Terminated(ColumnDefs(cols, i));
      TerminatedSnoc(ColumnDefs(cols, i), line);
      assert Terminated(ColumnDefs(cols, i + 1)) == before + line + ",\n";
      Regroup(header, before, line, ",\n");
      sql := sql + line + ",\n";
    }
    ghost var defs := ColumnDefs(cols, |cols|);
    assert defs + ForeignKeyDefs(foreignKeys, 0) == defs;
    sql := AppendForeignKeys(header, defs, sql, foreignKeys);
    var items := defs + ForeignKeyDefs(foreignKeys, |foreignKeys|);
    if items == [] {
      assert sql == "CREATE TABLE " + name + " " + "(\n";
      DropTerminator("CREATE TABLE " + name + " ");
    } else {
      TerminatedJoin(items);
      assert sql == (header + Join(",\n", items)) + ",\n";
      DropTerminator(header + Join(",\n", items));
    }
    sent := sql[..|sql| - 2] + "\n)";
  }

  /** The text the first pass of `create_table` appends for one column, before its ",\n". */
  method ColumnLine(col: Column) returns (line: string)
    ensures line == ColumnDef(col)
  {
    line := Repr(Text(col.name)) + " " + col.declType;
    if col.primaryKey {
      line := line + " PRIMARY KEY";
    }
    if col.notNull {
      line := line + " NOT NULL";
    }
    if Truthy(col.defaultValue) {
      line := line + " DEFAULT " + Repr(col.defaultValue);
    }
  }

  /** A column line starts with the quoted name and the type; what follows starts with the
      primary-key constraint exactly when the column is a primary key, continues with NOT NULL
      exactly for a NOT NULL column, and ends with the default exactly when the default value is
      truthy. */
  lemma ColumnDefMeaning(col: Column)
    ensures ColumnHead(col) <= ColumnDef(col)
    ensures var rest := ColumnDef(col)[|ColumnHead(col)|..];
      (col.primaryKey <==> " PRIMARY KEY" <= rest)
      && (col.notNull <==> " NOT NULL" <= rest[if col.primaryKey then |" PRIMARY KEY"| else 0..])
      && (Truthy(col.defaultValue) <==> EndsWith(rest, " DEFAULT " + Repr(col.defaultValue)))
  {
    ColumnDefSplit(col);
    var flags, def := ColumnFlags(col), ColumnDefault(col);
    var tail := " DEFAULT " + Repr(col.defaultValue);
    if Truthy(col.defaultValue) {
      EndsWithAppended(flags, tail);
    } else {
      assert flags + def == flags;
      FlagsHaveNoD(col);
      NoLetterNoSuffix(flags, tail, 'D');
    }
    FlagsStart(col);
    NotNullAfterKey(col);
  }

  /** A column line is its head, then its flags and its default. */
  lemma ColumnDefSplit(col: Column)
    ensures ColumnHead(col) <= ColumnDef(col)
    ensures ColumnDef(col)[|ColumnHead(col)|..] == ColumnFlags(col) + ColumnDefault(col)
  {
    assert ColumnDef(col) == ColumnHead(col) + (ColumnFlags(col) + ColumnDefault(col));
  }

  lemma EndsWithAppended(s: string, t: string)
    ensures EndsWith(s + t, t)
  {
    assert (s + t)[|s + t| - |t|..] == t;
  }

  /** A string without the letter `c` does not end with a text whose second character is `c`. */
  lemma NoLetterNoSuffix(s: string, t: string, c: char)
    requires forall i :: 0 <= i < |s| ==> s[i] != c
    requires 2 <= |t| && t[1] == c
    ensures !EndsWith(s, t)
  {
    if |t| <= |s| {
      assert s[|s| - |t|..][1] == s[|s| - |t| + 1];
    }
  }

  /** After the primary-key constraint, if any, comes ` NOT NULL` exactly for a NOT NULL column:
      otherwise the default, whose second character is D, or nothing. */
  lemma NotNullAfterKey(col: Column)
    ensures var k := if col.primaryKey then |" PRIMARY KEY"| else 0;
      var rest := ColumnFlags(col) + ColumnDefault(col);
      k <= |rest| && (col.notNull <==> " NOT NULL" <= rest[k..])
  {
    var k := if col.primaryKey then |" PRIMARY KEY"| else 0;
    var rest := ColumnFlags(col) + ColumnDefault(col);
    var nn := if col.notNull then " NOT NULL" else "";
    assert rest[k..] == nn + ColumnDefault(col);
    if !col.notNull && 2 <= |rest[k..]| {
      assert rest[k..][1] == 'D';
    }
  }

  /** What follows the head of a column that is not a primary key starts with NOT NULL, DEFAULT,
      or nothing. */
  lemma FlagsStart(col: Column)
    ensures !col.primaryKey && 2 <= |ColumnFlags(col) + ColumnDefault(col)| ==>
      (ColumnFlags(col) + ColumnDefault(col))[1] != 'P'
    ensures col.primaryKey ==> " PRIMARY KEY" <= ColumnFlags(col) + ColumnDefault(col)
  {
  }

  /** The flags are made of the words PRIMARY KEY and NOT NULL, which have no letter D. */
  lemma FlagsHaveNoD(col: Column)
    ensures forall i :: 0 <= i < |ColumnFlags(col)| ==> ColumnFlags(col)[i] != 'D'
  {
  }

  /** The second pass of `create_table`: one constraint per foreign key. */
  method AppendForeignKeys(ghost header: string, ghost defs: seq<string>, sql0: string, foreignKeys: seq<ForeignKey>)
    returns (sql: string)
    requires sql0 == header + Terminated(defs)
    ensures sql == header + Terminated(defs + ForeignKeyDefs(foreignKeys, |foreignKeys|))
  {
    sql := sql0;
    assert defs + ForeignKeyDefs(foreignKeys, 0) == defs;
    for k := 0 to |foreignKeys|
      invariant sql == header + Terminated(defs + ForeignKeyDefs(foreignKeys, k))
    {
      ForeignKeyStep(header, defs, foreignKeys, k);
      sql := AppendForeignKey(sql, sql, foreignKeys[k]);
    }
  }

  /** One more constraint extends the terminated list by its definition and ",\n". */
  lemma ForeignKeyStep(header: string, defs: seq<string>, fks: seq<ForeignKey>, k: nat)
    requires k < |fks|
    ensures header + Terminated(defs + ForeignKeyDefs(fks, k + 1))
            == header + Terminated(defs + ForeignKeyDefs(fks, k)) + ForeignKeyDef(fks[k]) + ",\n"
  {
    var before := Terminated(defs + ForeignKeyDefs(fks, k));
    assert defs + ForeignKeyDefs(fks, k + 1) == (defs + ForeignKeyDefs(fks, k)) + [ForeignKeyDef(fks[k])];
    TerminatedSnoc(defs + ForeignKeyDefs(fks, k), ForeignKeyDef(fks[k]));
    Regroup(header, before, ForeignKeyDef(fks[k]), ",\n");
  }

  /** One step of the second pass: the constraint and ",\n" are appended, and each action trims
      that ",\n" off again and appends its own line followed by ",\n". */
  method AppendForeignKey(ghost done: string, sql0: string, key: ForeignKey) returns (sql: string)
    requires sql0 == done
    ensures sql == done + ForeignKeyDef(key) + ",\n"
  {
    var line := "FOREIGN KEY(" + NameStr(key.fromCol) + ") REFERENCES " + key.table + "(" + NameStr(key.toCol) + ")";
    sql := sql0 + line + ",\n";
    if NameTruthy(key.onUpdate) {
      DropTerminator(done + line);
      sql := sql[..|sql| - 2] + "\nON UPDATE " + key.onUpdate.value + ",\n";
      line := line + "\nON UPDATE " + key.onUpdate.value;
      assert sql == (done + line) + ",\n";
    }
    if NameTruthy(key.onDelete) {
      DropTerminator(done + line);
      sql := sql[..|sql| - 2] + "\nON DELETE " + key.onDelete.value + ",\n";
      line := line + "\nON DELETE " + key.onDelete.value;
      assert sql == (done + line) + ",\n";
    }
    assert line == ForeignKeyDef(key);
  }

  // ---------------------------------------------------------------------------------------
  // fill_null

  /** `list.remove(x)`: the list without the first occurrence of `x`; None where Python raises
      ValueError because `x` does not occur. */
  function RemoveFirst(xs: seq<string>, x: string): (r: Option<seq<string>>)
    ensures r.Some? <==> x in xs
  {
    if |xs| == 0 then None
    else if xs[0] == x then Some(xs[1..])
    else
      match RemoveFirst(xs[1..], x)
      case None => None
      case Some(rest) => Some([xs[0]] + rest)
  }

  /** What is removed is one occurrence of `x`. */
  lemma {:induction false} RemoveFirstCount(xs: seq<string>, x: string)
    requires x in xs
    ensures multiset(RemoveFirst(xs, x).value) + multiset{x} == multiset(xs)
  {
    assert xs == [xs[0]] + xs[1..];
    if xs[0] != x {
      RemoveFirstCount(xs[1..], x);
    }
  }

  /** What is left of `xs` after removing the first `n` keys one by one; None once a removal
      fails. */
  function Removed(xs: seq<string>, keys: seq<string>, n: nat): Option<seq<string>>
    requires n <= |keys|
  {
    if n == 0 then Some(xs)
    else
      match Removed(xs, keys, n - 1)
      case None => None
      case Some(ys) => RemoveFirst(ys, keys[n - 1])
  }

  /** The removals succeed exactly when the keys, counted with multiplicity, occur in `xs`; what
      is left is the rest of `xs`. */
  lemma {:induction false} RemovedMeaning(xs: seq<string>, keys: seq<string>, n: nat)
    requires n <= |keys|
    ensures Removed(xs, keys, n).Some? <==> multiset(keys[..n]) <= multiset(xs)
    ensures Removed(xs, keys, n).Some? ==> multiset(Removed(xs, keys, n).value) + multiset(keys[..n]) == multiset(xs)
  {
    if n == 0 {
      assert keys[..0] == [];
    } else {
      RemovedMeaning(xs, keys, n - 1);
      var before := multiset(keys[..n - 1]);
      assert multiset(keys[..n]) == before + multiset{keys[n - 1]} by {
        assert keys[..n] == keys[..n - 1] + [keys[n - 1]];
      }
      if Removed(xs, keys, n - 1).Some? {
        RemoveStep(Removed(xs, keys, n - 1).value, keys[n - 1], before, multiset(xs));
      } else {
        assert !(before <= multiset(xs));
        assert !(before + multiset{keys[n - 1]} <= multiset(xs)) by {
          var m :| m in before && before[m] > multiset(xs)[m];
          assert (before + multiset{keys[n - 1]})[m] >= before[m];
        }
      }
    }
  }

  /** One removal from what is left succeeds exactly when one more occurrence of its key is in
      the original list. */
  lemma RemoveStep(ys: seq<string>, k: string, before: multiset<string>, all: multiset<string>)
    requires multiset(ys) + before == all
    ensures RemoveFirst(ys, k).Some? <==> before + multiset{k} <= all
    ensures RemoveFirst(ys, k).Some? ==> multiset(RemoveFirst(ys, k).value) + (before + multiset{k}) == all
  {
    if k in ys {
      RemoveFirstCount(ys, k);
    } else {
      assert multiset(ys)[k] == 0;
      assert (before + multiset{k})[k] == all[k] + 1;
    }
  }

  /** Once a removal fails, the later ones do not run. */
  lemma {:induction false} RemovedStaysFailed(xs: seq<string>, keys: seq<string>, i: nat, n: nat)
    requires i <= n <= |keys| && Removed(xs, keys, i).None?
    ensures Removed(xs, keys, n).None?
    decreases n - i
  {
    if i < n {
      assert Removed(xs, keys, i + 1).None?;
      RemovedStaysFailed(xs, keys, i + 1, n);
    }
  }

  /** `d` with `None` stored under the first `n` names, in order. */
  function PutNulls(d: Dict, names: seq<string>, n: nat): Dict
    requires n <= |names|
  {
    if n == 0 then d else Put(PutNulls(d, names, n - 1), names[n - 1], Null)
  }

  lemma {:induction false} PutNullsLookup(d: Dict, names: seq<string>, n: nat, k: string)
    requires n <= |names|
    ensures k in names[..n] ==> Lookup(PutNulls(d, names, n), k) == Some(Null)
    ensures k !in names[..n] ==> Lookup(PutNulls(d, names, n), k) == Lookup(d, k)
  {
    if n == 0 {
      assert names[..0] == [];
    } else {
      PutNullsLookup(d, names, n - 1, k);
      PutNullsStep(d, names, n, k);
      TakeSnocIn(names, n, k);
    }
  }

  lemma PutNullsStep(d: Dict, names: seq<string>, n: nat, k: string)
    requires 0 < n <= |names|
    ensures Lookup(PutNulls(d, names, n), k)
            == if k == names[n - 1] then Some(Null) else Lookup(PutNulls(d, names, n - 1), k)
  {
    LookupPut(PutNulls(d, names, n - 1), names[n - 1], Null, k);
  }

  lemma TakeSnocIn(names: seq<string>, n: nat, k: string)
    requires 0 < n <= |names|
    ensures k in names[..n] <==> k in names[..n - 1] || k == names[n - 1]
  {
    assert names[..n] == names[..n - 1] + [names[n - 1]];
  }

  /** The dict `fill_null` leaves: every key removed from the column list, ValueError if one is
      not there, and `None` stored under each name that is left. */
  function FilledNull(names: seq<string>, d: Dict): Result<Dict>
  {
    var keys := Keys(d);
    match Removed(names, keys, |keys|)
    case None => Err(ValueError)
    case Some(rest) => Ok(PutNulls(d, rest, |rest|))
  }

  /** No name occurs twice, so each occurs at most once in its multiset. */
  lemma {:induction false} DistinctOnce(xs: seq<string>, k: string)
    requires DistinctNames(xs)
    ensures multiset(xs)[k] <= 1
  {
    if |xs| > 0 {
      assert xs == [xs[0]] + xs[1..];
      assert DistinctNames(xs[1..]) by {
        forall i, j | 0 <= i < j < |xs[1..]| ensures xs[1..][i] != xs[1..][j] {
          assert xs[1..][i] == xs[i + 1] && xs[1..][j] == xs[j + 1];
        }
      }
      DistinctOnce(xs[1..], k);
      if xs[0] == k {
        assert k !in xs[1..] by {
          forall i | 0 <= i < |xs[1..]| ensures xs[1..][i] != k {
            assert xs[1..][i] == xs[i + 1];
          }
        }
      }
    }
  }

  /** The keys of a dict are distinct. */
  lemma KeysDistinct(d: Dict)
    ensures DistinctNames(Keys(d))
  {
  }

  /** `fill_null` fails exactly when the entry holds a key that is not a column. */
  lemma FillNullAccepts(names: seq<string>, d: Dict)
    ensures FilledNull(names, d).Ok? <==> KeySet(d) <= NameSet(names)
    ensures FilledNull(names, d).Err? ==> FilledNull(names, d).error == ValueError
  {
    var keys := Keys(d);
    RemovedMeaning(names, keys, |keys|);
    assert keys[..|keys|] == keys;
    KeysDistinct(d);
    if KeySet(d) <= NameSet(names) {
      forall k ensures multiset(keys)[k] <= multiset(names)[k] {
        DistinctOnce(keys, k);
        if k in keys {
          assert k in KeySet(d);
        }
      }
    } else {
      var k :| k in KeySet(d) && k !in names;
      assert multiset(keys)[k] > 0;
    }
  }

  /** After `fill_null` the entry's keys are exactly the column names, and every name it did
      not hold maps to `None`. */
  lemma FillNullFills(names: seq<string>, d: Dict)
    requires FilledNull(names, d).Ok?
    ensures KeySet(FilledNull(names, d).value) == NameSet(names)
    ensures forall k :: k in names && k !in KeySet(d) ==> Lookup(FilledNull(names, d).value, k) == Some(Null)
  {
    var keys := Keys(d);
    var rest := Removed(names, keys, |keys|).value;
    var r := FilledNull(names, d).value;
    RemovedMeaning(names, keys, |keys|);
    assert keys[..|keys|] == keys;
    assert rest[..|rest|] == rest;
    forall k ensures k in KeySet(r) <==> k in names {
      PutNullsLookup(d, rest, |rest|, k);
      assert k in names <==> multiset(names)[k] > 0;
      assert k in KeySet(d) <==> multiset(keys)[k] > 0;
    }
    forall k | k in names && k !in KeySet(d) ensures Lookup(r, k) == Some(Null) {
      PutNullsLookup(d, rest, |rest|, k);
      assert multiset(keys)[k] == 0;
    }
  }

  /** With distinct column names, `fill_null` keeps every value the entry already held. */
  lemma FillNullKeeps(names: seq<string>, d: Dict, k: string)
    requires DistinctNames(names) && FilledNull(names, d).Ok? && k in KeySet(d)
    ensures Lookup(FilledNull(names, d).value, k) == Lookup(d, k)
  {
    var keys := Keys(d);
    var rest := Removed(names, keys, |keys|).value;
    RemovedMeaning(names, keys, |keys|);
    assert keys[..|keys|] == keys;
    assert rest[..|rest|] == rest;
    DistinctOnce(names, k);
    assert multiset(keys)[k] > 0;
    PutNullsLookup(d, rest, |rest|, k);
  }

  /** `fill_null`: reads the columns of the entry's table, removes the entry's keys from that list
      (ValueError, with the entry untouched, if one is missing) and stores `None` in place under
      each name that is left. */
  method FillNull(cat: Catalog, entry: DatabaseEntry) returns (r: Result<DatabaseEntry>)
    modifies entry
    ensures match ColumnNamesOf(cat, entry.table)
      case Err(e) => r == Err(e) && entry.data == old(entry.data)
      case Ok(names) =>
        match FilledNull(names, old(entry.data))
        case Err(e) => r == Err(e) && entry.data == old(entry.data)
        case Ok(filled) => r == Ok(entry) && entry.data == filled
  {
    if entry.table.None? {
      return Err(DatabaseError(NoSuchTable));
    }
    var tFields := GetColumnNames(cat, entry.table.value);
    if tFields.Err? {
      return Err(tFields.error);
    }
    var rest := RemoveAll(tFields.value, Keys(entry.data));
    if rest.None? {
      return Err(ValueError);
    }
    PutNullsInPlace(entry, rest.value);
    return Ok(entry);
  }

  /** The first loop of `fill_null`: `t_fields.remove(f)` for each key in turn. */
  method RemoveAll(names: seq<string>, keys: seq<string>) returns (r: Option<seq<string>>)
    ensures r == Removed(names, keys, |keys|)
  {
    var rest := names;
    for i := 0 to |keys|
      invariant Removed(names, keys, i) == Some(rest)
    {
      var removed := RemoveFirst(rest, keys[i]);
      if removed.None? {
        RemovedStaysFailed(names, keys, i + 1, |keys|);
        return None;
      }
      rest := removed.value;
    }
    return Some(rest);
  }

  /** The second loop of `fill_null`: `entry[name] = None` for each name left. */
  method PutNullsInPlace(entry: DatabaseEntry, rest: seq<string>)
    modifies entry
    ensures entry.data == PutNulls(old(entry.data), rest, |rest|)
  {
    for j := 0 to |rest|
      invariant entry.data == PutNulls(old(entry.data), rest, j)
    {
      entry.data := Put(entry.data, rest[j], Null);
    }
  }

  // ---------------------------------------------------------------------------------------
  // get_table_raw

  /** The names a `get_only` list asks for, when every item is a string. */
  function ItemTexts(items: seq<Value>): (r: seq<string>)
    requires forall i :: 0 <= i < |items| ==> items[i].Text?
    ensures |r| == |items| && forall i :: 0 <= i < |items| ==> r[i] == items[i].s
  {
    seq(|items|, i requires 0 <= i < |items| => items[i].s)
  }

  /** The column list `get_table_raw` selects: "*" for a falsy `get_only`, ValueError for a
      truthy value that is not a list, and otherwise the comma-joined names once each of them is
      found among the table's columns (DatabaseError for the first one that is not). */
  function Selection(cat: Catalog, name: string, getOnly: Value): Result<string>
  {
    if !Truthy(getOnly) then Ok("*")
    else if !getOnly.List? then Err(ValueError)
    else
      match ColumnNames(cat, name)
      case Err(e) => Err(e)
      case Ok(names) =>
        var items := getOnly.items;
        if forall i :: 0 <= i < |items| ==> items[i].Text? && items[i].s in names
        then Ok(Join(",", ItemTexts(items)))
        else Err(DatabaseError(UnknownFields))
  }

  /** A selected list names only columns of the table, and, when no column name contains a
      comma, splitting the selection at its commas gives back the requested names. */
  lemma SelectionNamesColumns(cat: Catalog, name: string, getOnly: Value)
    requires Selection(cat, name, getOnly).Ok? && Truthy(getOnly)
    ensures getOnly.List? && ColumnNames(cat, name).Ok?
    ensures forall i :: 0 <= i < |getOnly.items| ==> getOnly.items[i].Text? && getOnly.items[i].s in ColumnNames(cat, name).value
    ensures (forall i :: 0 <= i < |ColumnNames(cat, name).value| ==> ',' !in ColumnNames(cat, name).value[i]) ==>
      Split(Selection(cat, name, getOnly).value, ',') == ItemTexts(getOnly.items)
  {
    var names := ColumnNames(cat, name).value;
    var texts := ItemTexts(getOnly.items);
    if forall i :: 0 <= i < |names| ==> ',' !in names[i] {
      forall i | 0 <= i < |texts| ensures ',' !in texts[i] {
        var j :| 0 <= j < |names| && names[j] == texts[i];
      }
      SplitJoin(texts, ',');
    }
  }

  /** `get_table_raw`: checks a `get_only` list item by item against the table's columns, then
      sends `SELECT <selection> FROM <name>` and returns the engine's rows as they are. */
  method GetTableRaw(cat: Catalog, name: string, getOnly: Value, answer: Answer)
    returns (r: Result<seq<seq<Value>>>, sent: string)
    ensures Selection(cat, name, getOnly).Err? ==> r == Err(Selection(cat, name, getOnly).error) && sent == ""
    ensures Selection(cat, name, getOnly).Ok? ==>
      sent == "SELECT " + Selection(cat, name, getOnly).value + " FROM " + name
      && r == (if answer.Rows? then Ok(answer.rows) else Err(EngineError))
  {
    sent := "";
    var selected := "*";
    if Truthy(getOnly) {
      if !getOnly.List? {
        return Err(ValueError), "";
      }
      var fields := GetColumnNames(cat, name);
      if fields.Err? {
        return Err(fields.error), "";
      }
      var items := getOnly.items;
      for i := 0 to |items|
        invariant forall j :: 0 <= j < i ==> items[j].Text? && items[j].s in fields.value
      {
        if !(items[i].Text? && items[i].s in fields.value) {
          return Err(DatabaseError(UnknownFields)), "";
        }
      }
      selected := Join(",", ItemTexts(items));
    }
    sent := "SELECT " + selected + " FROM " + name;
    if answer.Rows? {
      r := Ok(answer.rows);
    } else {
      r := Err(EngineError);
    }
  }

  // ---------------------------------------------------------------------------------------
  // add_entry

  /** What `add_entry` and `update_entry` accept: a plain dict (which needs a table name) or a
      record that carries its table. */
  datatype EntryArg = PlainDict(dict: Dict) | Record(entry: DatabaseEntry)
  {
    /** The objects an operation on this argument may read or update. */
    function Footprint(): set<DatabaseEntry>
    {
      if Record? then {entry} else {}
    }
  }

  /** The table the record will be checked against. */
  function TagOf(arg: EntryArg, table: Option<string>): Option<string>
    reads arg.Footprint()
  {
    if arg.PlainDict? then table else arg.entry.table
  }

  /** `entry[id_field] = None` when the table has a (non-empty) primary-key name. */
  function ForceIdNull(d: Dict, idField: Option<string>): Dict
  {
    if NameTruthy(idField) then Put(d, idField.value, Null) else d
  }

  /** The dict `add_entry` inserts into table `t`: the table must exist (the error raised for a
      missing one is AttributeError, because its message reads `self.table`, which a Database
      does not have) and its columns decode; the primary key is set to `None`; with `fillNull`
      the missing columns are filled; and then the keys must be exactly the column names. */
  function InsertPlan(cat: Catalog, t: string, d: Dict, fillNull: bool): Result<Dict>
  {
    if !IsTable(cat, t) then Err(AttributeError)
    else
      match ColumnNames(cat, t)
      case Err(e) => Err(e)
      case Ok(names) =>
        match IdField(cat, t, false)
        case Err(e) => Err(e)
        case Ok(idField) =>
          var forced := ForceIdNull(d, idField);
          match (if fillNull then FilledNull(names, forced) else Ok(forced))
          case Err(e) => Err(e)
          case Ok(ready) =>
            if KeySet(ready) != NameSet(names) then Err(DatabaseError(FieldMismatch)) else Ok(ready)
  }

  /** What a record holds after `add_entry`'s in-place steps ran on it, whether or not the
      insertion went ahead: the key forced to `None` and, with `fillNull`, the fill. */
  function AfterInsertSteps(cat: Catalog, t: string, d: Dict, fillNull: bool): Dict
  {
    if !IsTable(cat, t) || ColumnNames(cat, t).Err? || IdField(cat, t, false).Err? then d
    else
      var forced := ForceIdNull(d, IdField(cat, t, false).value);
      var filled := FilledNull(ColumnNames(cat, t).value, forced);
      if fillNull && filled.Ok? then filled.value else forced
  }

  /** The value `add_entry` returns after a successful insert: `None` unless the table named by
      the `table` ARGUMENT (read as "None" when omitted) has a primary key. */
  function InsertedId(cat: Catalog, table: Option<string>, lastRowId: Value): Result<Option<Value>>
  {
    match IdField(cat, NameStr(table), false)
    case Err(e) => Err(e)
    case Ok(idField) => if NameTruthy(idField) then Ok(Some(lastRowId)) else Ok(None)
  }

  /** The text `INSERT_INTO(t).VALUES(d)` builds. */
  function InsertSql(t: string, d: Dict, lits: seq<string>): string
  {
    "INSERT INTO " + t + " " + "(" + Join(", ", Keys(d)) + ") VALUES (" + Join(", ", lits) + ") "
  }

  /** Whatever is filled in, the primary key of an accepted insert holds `None`. */
  lemma InsertPlanIdIsNull(cat: Catalog, t: string, d: Dict, fillNull: bool)
    requires InsertPlan(cat, t, d, fillNull).Ok?
    ensures KeySet(InsertPlan(cat, t, d, fillNull).value) == NameSet(ColumnNames(cat, t).value)
    ensures NameTruthy(IdField(cat, t, false).value) ==>
      Lookup(InsertPlan(cat, t, d, fillNull).value, IdField(cat, t, false).value.value) == Some(Null)
  {
    var idField := IdField(cat, t, false).value;
    if NameTruthy(idField) {
      var forced := ForceIdNull(d, idField);
      LookupPut(d, idField.value, Null, idField.value);
      if fillNull {
        FillNullLookup(ColumnNames(cat, t).value, forced, idField.value);
      }
    }
  }

  /** A filled dict keeps each value or stores `None`. */
  lemma FillNullLookup(names: seq<string>, d: Dict, k: string)
    requires FilledNull(names, d).Ok?
    ensures Lookup(FilledNull(names, d).value, k) == Some(Null) || Lookup(FilledNull(names, d).value, k) == Lookup(d, k)
  {
    var keys := Keys(d);
    var rest := Removed(names, keys, |keys|).value;
    PutNullsLookup(d, rest, |rest|, k);
    assert rest[..|rest|] == rest;
  }

  /** With `fillNull` the key-set check cannot fail: the insert is refused only for a missing
      table, undecodable columns, or a key (besides the primary key) that is not a column. */
  lemma InsertPlanFilled(cat: Catalog, t: string, d: Dict)
    ensures InsertPlan(cat, t, d, true).Ok? <==>
      (IsTable(cat, t) && ColumnNames(cat, t).Ok? && IdField(cat, t, false).Ok? &&
       KeySet(ForceIdNull(d, IdField(cat, t, false).value)) <= NameSet(ColumnNames(cat, t).value))
    ensures InsertPlan(cat, t, d, true).Err? ==> InsertPlan(cat, t, d, true).error != DatabaseError(FieldMismatch)
  {
    if IsTable(cat, t) && ColumnNames(cat, t).Ok? && IdField(cat, t, false).Ok? {
      var names := ColumnNames(cat, t).value;
      var forced := ForceIdNull(d, IdField(cat, t, false).value);
      FillNullAccepts(names, forced);
      if FilledNull(names, forced).Ok? {
        FillNullFills(names, forced);
      }
    }
  }

  /** Without `fillNull` the record, with its primary key added, must name every column and
      nothing else. */
  lemma InsertPlanStrict(cat: Catalog, t: string, d: Dict)
    requires IsTable(cat, t) && ColumnNames(cat, t).Ok? && IdField(cat, t, false).Ok?
    ensures InsertPlan(cat, t, d, false).Ok? <==>
      KeySet(ForceIdNull(d, IdField(cat, t, false).value)) == NameSet(ColumnNames(cat, t).value)
  {
  }

  /** `INSERT_INTO(t).VALUES(d).run()` on a query bound to the database, for a dict whose keys are
      the table's columns: only the rendering of a value or the engine can fail. */
  method RunInsert(cat: Catalog, t: string, d: Dict, engine: Answer) returns (r: Result<Done>, sent: string)
    requires IsTable(cat, t) && ColumnNames(cat, t).Ok?
    requires KeySet(d) == NameSet(ColumnNames(cat, t).value)
    ensures Literals(Vals(d)).Err? ==> r == Err(Literals(Vals(d)).error) && sent == ""
    ensures Literals(Vals(d)).Ok? ==> sent == InsertSql(t, d, Literals(Vals(d)).value) && DataRun(engine, r)
  {
    var q, built := BuildInsert(cat, t, d);
    if built.Err? {
      return built, "";
    }
    sent := q.sql;
    r := Execute(q, engine);
  }

  /** `INSERT_INTO(t).VALUES(d)` on a new query bound to the database. */
  method BuildInsert(cat: Catalog, t: string, d: Dict) returns (q: Query, r: Result<Done>)
    requires IsTable(cat, t) && ColumnNames(cat, t).Ok?
    requires KeySet(d) == NameSet(ColumnNames(cat, t).value)
    ensures fresh(q) && q.Valid() && q.db == Some(cat) && q.fields.Listed?
    ensures match Literals(Vals(d))
      case Err(e) => r == Err(e)
      case Ok(lits) => r == Ok(Done) && q.sql == InsertSql(t, d, lits)
  {
    q := StartInsert(cat, t);
    r := AddValues(q, t, d);
  }

  /** `INSERT_INTO(t)` on a new query bound to the database: the columns become the fields. */
  method StartInsert(cat: Catalog, t: string) returns (q: Query)
    requires ColumnNames(cat, t).Ok?
    ensures fresh(q) && q.Valid() && q.db == Some(cat)
    ensures q.history == [INSERT_INTO] && q.fields == Listed(ColumnNames(cat, t).value)
    ensures q.sql == "INSERT INTO " + t + " "
  {
    q := new Query(Some(cat));
    assert TopOf(q.history) == None;
    var into := q.InsertInto(t);
  }

  /** `VALUES(d)` after `INSERT_INTO(t)`, for a dict whose keys are among the fields. */
  method AddValues(q: Query, t: string, d: Dict) returns (r: Result<Done>)
    requires q.Valid() && q.history == [INSERT_INTO] && q.fields.Listed?
    requires q.sql == "INSERT INTO " + t + " " && KeySet(d) <= NameSet(q.fields.names)
    modifies q
    ensures q.Valid() && q.fields == old(q.fields)
    ensures match Literals(Vals(d))
      case Err(e) => r == Err(e)
      case Ok(lits) => r == Ok(Done) && q.sql == InsertSql(t, d, lits)
  {
    assert TopOf(q.history) == Some(INSERT_INTO);
    assert AllowedNames(q.fields) == Ok(NameSet(q.fields.names));
    ghost var sql0 := q.sql;
    var values := q.Values(d);
    match Literals(Vals(d)) {
      case Err(e) =>
        r := Err(e);
      case Ok(lits) =>
        assert q.sql == sql0 + "(" + Join(", ", Keys(d)) + ") VALUES (" + Join(", ", lits) + ") ";
        r := Ok(Done);
    }
  }

  /** What running a data statement, which selects no rows, gives back for the engine's answer:
      the engine's rejection as DatabaseError, any other engine error as it is, and success for
      the empty result. */
  predicate DataRun(engine: Answer, r: Result<Done>)
  {
    (engine.OperationalError? ==> r == Err(DatabaseError(ExecutionFailed)))
    && (engine.OtherEngineError? ==> r == Err(EngineError))
    && (engine == Rows([]) ==> r == Ok(Done))
  }

  /** `run()` of a built statement on its own database, its result discarded. */
  method Execute(q: Query, engine: Answer) returns (r: Result<Done>)
    requires q.Valid() && q.db.Some? && q.fields != AllFields
    modifies q
    ensures DataRun(engine, r)
  {
    var run := q.Run(None, false, engine);
    r := if run.Err? then Err(run.error) else Ok(Done);
  }

  /** The checks and in-place steps `add_entry` runs on a record of an existing table before
      inserting it: they succeed exactly when `InsertPlan` does, leaving its dict in the record. */
  method PrepareRecord(cat: Catalog, entry: DatabaseEntry, t: string, fillNull: bool) returns (r: Result<Done>)
    requires entry.table == Some(t) && IsTable(cat, t)
    modifies entry
    ensures entry.data == AfterInsertSteps(cat, t, old(entry.data), fillNull)
    ensures match InsertPlan(cat, t, old(entry.data), fillNull)
      case Err(e) => r == Err(e)
      case Ok(ready) => r == Ok(Done) && entry.data == ready
  {
    var tableFields := GetColumnNames(cat, t);
    if tableFields.Err? {
      return Err(tableFields.error);
    }
    var idField := GetTableIdField(cat, t, false);
    if idField.Err? {
      return Err(idField.error);
    }
    if NameTruthy(idField.value) {
      entry.data := Put(entry.data, idField.value.value, Null);
    }
    if fillNull {
      var filled := FillNull(cat, entry);
      if filled.Err? {
        return Err(filled.error);
      }
    }
    if KeySet(entry.data) != NameSet(tableFields.value) {
      return Err(DatabaseError(FieldMismatch));
    }
    r := Ok(Done);
  }

  /** `add_entry`: wraps a plain dict (which needs a truthy table name) in a new record, checks
      the table, forces the primary key to `None` in place, optionally fills the missing
      columns, requires the keys to equal the columns, inserts, and returns the new row id when
      the table named by the `table` argument has a primary key. `lastRowId` is the engine's
      `last_insert_rowid()`. */
  method AddEntry(cat: Catalog, arg: EntryArg, table: Option<string>, fillNull: bool, engine: Answer, lastRowId: Value)
    returns (r: Result<Option<Value>>, sent: string)
    modifies arg.Footprint()
    ensures arg.PlainDict? && !NameTruthy(table) ==> r == Err(DatabaseError(NoTableGiven)) && sent == ""
    ensures (arg.Record? || NameTruthy(table)) && TagOf(arg, table).None? ==>
      r == Err(AttributeError) && sent == ""
    ensures arg.Record? && arg.entry.table.None? ==> arg.entry.data == old(arg.entry.data)
    ensures (arg.Record? || NameTruthy(table)) && TagOf(arg, table).Some? ==>
      var t := TagOf(arg, table).value;
      var d := if arg.PlainDict? then arg.dict else old(arg.entry.data);
      (arg.Record? ==> arg.entry.data == AfterInsertSteps(cat, t, d, fillNull)) &&
      match InsertPlan(cat, t, d, fillNull)
      case Err(e) => r == Err(e) && sent == ""
      case Ok(ready) =>
        match Literals(Vals(ready))
        case Err(e) => r == Err(e) && sent == ""
        case Ok(lits) =>
          sent == InsertSql(t, ready, lits)
          && (engine.OperationalError? ==> r == Err(DatabaseError(ExecutionFailed)))
          && (engine.OtherEngineError? ==> r == Err(EngineError))
          && (engine == Rows([]) ==> r == InsertedId(cat, table, lastRowId))
          && (r.Ok? ==> r == InsertedId(cat, table, lastRowId))
  {
    sent := "";
    var entry: DatabaseEntry;
    match arg {
      case PlainDict(dict) =>
        if !NameTruthy(table) {
          return Err(DatabaseError(NoTableGiven)), "";
        }
        entry := new DatabaseEntry(dict, table);
      case Record(e) =>
        entry := e;
    }
    if entry.table.None? || !IsTable(cat, entry.table.value) {
      // the message reads `self.table`, which a Database does not have
      return Err(AttributeError), "";
    }
    var t := entry.table.value;
    var prepared := PrepareRecord(cat, entry, t, fillNull);
    if prepared.Err? {
      return Err(prepared.error), "";
    }
    var inserted;
    inserted, sent := RunInsert(cat, t, entry.data, engine);
    if inserted.Err? {
      return Err(inserted.error), sent;
    }
    r := InsertedRowId(cat, table, lastRowId);
  }

  /** The tail of `add_entry`: `None` when the table named by the argument has no primary key,
      the engine's last row id otherwise. */
  method InsertedRowId(cat: Catalog, table: Option<string>, lastRowId: Value) returns (r: Result<Option<Value>>)
    ensures r == InsertedId(cat, table, lastRowId)
  {
    var idAgain := GetTableIdField(cat, NameStr(table), false);
    if idAgain.Err? {
      return Err(idAgain.error);
    }
    if !NameTruthy(idAgain.value) {
      return Ok(None);
    }
    r := Ok(Some(lastRowId));
  }

  /** `add_entry` returns the new row id exactly when the first primary-key column of the table
      named by the `table` argument has a (non-empty) name, and None otherwise; columns that do
      not decode give their error. */
  lemma InsertedIdMeaning(cat: Catalog, table: Option<string>, lastRowId: Value)
    ensures TableCols(cat, NameStr(table)).Err? ==>
      InsertedId(cat, table, lastRowId) == Err(TableCols(cat, NameStr(table)).error)
    ensures TableCols(cat, NameStr(table)).Ok? ==>
      var cols := TableCols(cat, NameStr(table)).value;
      (InsertedId(cat, table, lastRowId) == Ok(Some(lastRowId)) <==>
         exists i :: 0 <= i < |cols| && cols[i].primaryKey && cols[i].name != ""
                     && forall j :: 0 <= j < i ==> !cols[j].primaryKey)
      && (InsertedId(cat, table, lastRowId) != Ok(Some(lastRowId)) ==> InsertedId(cat, table, lastRowId) == Ok(None))
  {
    if TableCols(cat, NameStr(table)).Ok? {
      var cols := TableCols(cat, NameStr(table)).value;
      FirstKeyNamed(cols);
      assert IdField(cat, NameStr(table), false)
        == Ok(if FirstPrimaryKey(cols).Some? then Some(cols[FirstPrimaryKey(cols).value].name) else None);
    }
  }

  /** The first primary-key column has a name exactly when some primary-key column with a name
      has no primary-key column before it. */
  lemma FirstKeyNamed(cols: seq<Column>)
    ensures (FirstPrimaryKey(cols).Some? && cols[FirstPrimaryKey(cols).value].name != "") <==>
      exists i :: 0 <= i < |cols| && cols[i].primaryKey && cols[i].name != ""
                  && forall j :: 0 <= j < i ==> !cols[j].primaryKey
  {
    FirstPrimaryKeyMeaning(cols);
    if exists i :: 0 <= i < |cols| && cols[i].primaryKey && cols[i].name != ""
                   && forall j :: 0 <= j < i ==> !cols[j].primaryKey {
      var i :| 0 <= i < |cols| && cols[i].primaryKey && cols[i].name != ""
               && forall j :: 0 <= j < i ==> !cols[j].primaryKey;
      FirstPrimaryKeyFound(cols, i);
    }
  }

  // ---------------------------------------------------------------------------------------
  // update_entry, delete_entry, delete_entry_by_id

  /** `entry[key]` for a key that may be None (never a key of the dict): KeyError unless the dict
      holds the key. */
  function Subscript(d: Dict, key: Option<string>): (r: Result<Value>)
    ensures r.Ok? <==> key.Some? && key.value in KeySet(d)
    ensures r.Err? ==> r.error == KeyError
    ensures r.Ok? ==> Lookup(d, key.value) == Some(r.value)
  {
    if key.Some? && key.value in KeySet(d) then Ok(Lookup(d, key.value).value) else Err(KeyError)
  }

  /** An equality clause compares the column with a literal that reads back as the value: the
      numeral of an integer, the quoted form of a string. */
  lemma WhereTextReadsBack(colName: string, value: Value)
    requires value != Text("") && value != Null && WhereText(colName, value).Ok?
    ensures "WHERE " + colName + " = " <= WhereText(colName, value).value
    ensures value.Int? ==> ParseInt(WhereText(colName, value).value[|"WHERE " + colName + " = "|..]) == Some(value.i)
    ensures value.Text? ==> ParseQuoted(WhereText(colName, value).value[|"WHERE " + colName + " = "|..]) == Some(value.s)
  {
    var prefix := "WHERE " + colName + " = ";
    var lit := SqlLiteral(value).value;
    SqlLiteralReadsBack(value);
    assert WhereText(colName, value).value == prefix + lit;
    assert (prefix + lit)[|prefix|..] == lit;
  }

  /** `WHERE(colName, value).run()` on a statement bound to a database, its result discarded. */
  method WhereAndRun(q: Query, colName: string, value: Value, engine: Answer) returns (r: Result<Done>, sent: string)
    requires q.Valid() && TopOf(q.history) in Predecessors(WHERE) && q.db.Some? && q.fields != AllFields
    modifies q
    ensures match WhereText(colName, value)
      case Err(e) => r == Err(e) && sent == ""
      case Ok(w) =>
        sent == old(q.sql) + w
        && DataRun(engine, r)
  {
    var w := q.Where(colName, value);
    if w.Err? {
      return Err(w.error), "";
    }
    sent := q.sql;
    r := Execute(q, engine);
  }

  /** The dict `update_entry` writes, after its checks in order: the primary-key lookup (which
      reads the tag as "None" for an untagged record), the table, the optional fill, and the key
      sets, which must be equal or, with `part`, the record's a subset of the columns. */
  function UpdatePlan(cat: Catalog, tag: Option<string>, d: Dict, part: bool, fillNull: bool): (r: Result<Dict>)
    ensures r.Ok? ==> tag.Some? && IsTable(cat, tag.value) && IdField(cat, tag.value, false).Ok?
    ensures r.Ok? ==> ColumnNames(cat, tag.value).Ok? && KeySet(r.value) <= NameSet(ColumnNames(cat, tag.value).value)
  {
    match IdField(cat, NameStr(tag), false)
    case Err(e) => Err(e)
    case Ok(_) =>
      if tag.None? || !IsTable(cat, tag.value) then Err(DatabaseError(NoSuchTable))
      else
        match ColumnNames(cat, tag.value)
        case Err(e) => Err(e)
        case Ok(names) =>
          match (if fillNull then FilledNull(names, d) else Ok(d))
          case Err(e) => Err(e)
          case Ok(ready) =>
            if NameSet(names) == KeySet(ready) || (part && KeySet(ready) <= NameSet(names)) then Ok(ready)
            else Err(DatabaseError(FieldMismatch))
  }

  /** What a record holds after `update_entry`'s in-place fill ran on it, whether or not the
      update went ahead. */
  function AfterUpdateSteps(cat: Catalog, tag: Option<string>, d: Dict, fillNull: bool): Dict
  {
    if !fillNull || IdField(cat, NameStr(tag), false).Err? || tag.None? || !IsTable(cat, tag.value) then d
    else
      match ColumnNames(cat, tag.value)
      case Err(_) => d
      case Ok(names) =>
        match FilledNull(names, d)
        case Err(_) => d
        case Ok(filled) => filled
  }

  /** Without a fill, a record of an existing table is written exactly when its keys are the
      columns or, with `part`, some of them; the record is written as it is. */
  lemma UpdatePlanAccepts(cat: Catalog, t: string, d: Dict, part: bool)
    requires IsTable(cat, t) && ColumnNames(cat, t).Ok? && IdField(cat, t, false).Ok?
    ensures UpdatePlan(cat, Some(t), d, part, false).Ok? <==>
      (KeySet(d) == NameSet(ColumnNames(cat, t).value) || (part && KeySet(d) <= NameSet(ColumnNames(cat, t).value)))
    ensures UpdatePlan(cat, Some(t), d, part, false).Ok? ==> UpdatePlan(cat, Some(t), d, part, false).value == d
    ensures UpdatePlan(cat, Some(t), d, part, false).Err? ==>
      UpdatePlan(cat, Some(t), d, part, false).error == DatabaseError(FieldMismatch)
  {
  }

  /** With a fill, the record is written exactly when its keys are among the columns (ValueError
      otherwise), and what is written names every column: `part` makes no difference. */
  lemma UpdatePlanFilled(cat: Catalog, t: string, d: Dict, part: bool)
    requires IsTable(cat, t) && ColumnNames(cat, t).Ok? && IdField(cat, t, false).Ok?
    ensures UpdatePlan(cat, Some(t), d, part, true).Ok? <==> KeySet(d) <= NameSet(ColumnNames(cat, t).value)
    ensures UpdatePlan(cat, Some(t), d, part, true).Err? ==> UpdatePlan(cat, Some(t), d, part, true).error == ValueError
    ensures UpdatePlan(cat, Some(t), d, part, true).Ok? ==>
      KeySet(UpdatePlan(cat, Some(t), d, part, true).value) == NameSet(ColumnNames(cat, t).value)
      && UpdatePlan(cat, Some(t), d, part, true) == UpdatePlan(cat, Some(t), d, false, true)
  {
    var names := ColumnNames(cat, t).value;
    FillNullAccepts(names, d);
    if FilledNull(names, d).Ok? {
      FillNullFills(names, d);
    }
  }

  /** The statement `UPDATE(t).SET(d).WHERE(idField, d[idField])` builds. */
  function UpdateSql(t: string, d: Dict, idField: Option<string>): Result<string>
  {
    match AssignmentText(d)
    case Err(e) => Err(e)
    case Ok(assign) =>
      match Subscript(d, idField)
      case Err(e) => Err(e)
      case Ok(v) =>
        match WhereText(NameStr(idField), v)
        case Err(e) => Err(e)
        case Ok(w) => Ok("UPDATE " + t + " " + "SET " + assign + " " + w)
  }

  /** An update is only ever sent for a record holding the primary key, and it selects the row
      by that key's value: on a table without a primary key `update_entry` cannot succeed. */
  lemma UpdateSqlSelectsById(t: string, d: Dict, idField: Option<string>)
    ensures idField.None? ==> UpdateSql(t, d, idField) == Err(TypeError) || UpdateSql(t, d, idField) == Err(KeyError)
    ensures UpdateSql(t, d, idField).Ok? ==>
      idField.Some? && idField.value in KeySet(d) &&
      UpdateSql(t, d, idField).value ==
        "UPDATE " + t + " " + "SET " + AssignmentText(d).value + " " + WhereText(idField.value, Lookup(d, idField.value).value).value
  {
  }

  /** `UPDATE(t)` on a new query bound to the database: the columns become the fields. */
  method StartUpdate(cat: Catalog, t: string) returns (q: Query)
    requires IsTable(cat, t) && ColumnNames(cat, t).Ok?
    ensures fresh(q) && q.Valid() && q.db == Some(cat)
    ensures q.history == [UPDATE] && q.fields == Listed(ColumnNames(cat, t).value)
    ensures q.sql == "UPDATE " + t + " "
  {
    q := new Query(Some(cat));
    assert TopOf(q.history) == None;
    var update := q.Update(t);
  }

  /** `SET(d)` after `UPDATE(t)`, for a dict whose keys are among the fields. */
  method AddSet(q: Query, d: Dict) returns (r: Result<Done>)
    requires q.Valid() && q.history == [UPDATE] && q.fields.Listed? && KeySet(d) <= NameSet(q.fields.names)
    modifies q
    ensures q.Valid() && q.fields == old(q.fields) && q.history == [UPDATE, SET]
    ensures match AssignmentText(d)
      case Err(e) => r == Err(e)
      case Ok(assign) => r == Ok(Done) && q.sql == old(q.sql) + "SET " + assign + " "
  {
    assert TopOf(q.history) == Some(UPDATE);
    assert AllowedNames(q.fields) == Ok(NameSet(q.fields.names));
    var setStep := q.Set(d);
    r := if setStep.Err? then Err(setStep.error) else Ok(Done);
  }

  /** `UPDATE(t).SET(d).WHERE(idField, d[idField]).run()` on a query bound to the database, for a
      dict whose keys are among the table's columns. */
  method RunUpdate(cat: Catalog, t: string, d: Dict, idField: Option<string>, engine: Answer)
    returns (r: Result<Done>, sent: string)
    requires IsTable(cat, t) && ColumnNames(cat, t).Ok? && KeySet(d) <= NameSet(ColumnNames(cat, t).value)
    ensures UpdateSql(t, d, idField).Err? ==> r == Err(UpdateSql(t, d, idField).error) && sent == ""
    ensures UpdateSql(t, d, idField).Ok? ==> sent == UpdateSql(t, d, idField).value && DataRun(engine, r)
  {
    var q := StartUpdate(cat, t);
    var setStep := AddSet(q, d);
    if setStep.Err? {
      return setStep, "";
    }
    r, sent := WhereIdAndRun(q, d, idField, engine);
  }

  /** `.WHERE(idField, d[idField]).run()` after `SET(d)`: KeyError unless the dict holds the key. */
  method WhereIdAndRun(q: Query, d: Dict, idField: Option<string>, engine: Answer) returns (r: Result<Done>, sent: string)
    requires q.Valid() && q.history == [UPDATE, SET] && q.db.Some? && q.fields.Listed?
    modifies q
    ensures match Subscript(d, idField)
      case Err(e) => r == Err(e) && sent == ""
      case Ok(v) =>
        match WhereText(NameStr(idField), v)
        case Err(e) => r == Err(e) && sent == ""
        case Ok(w) => sent == old(q.sql) + w && DataRun(engine, r)
  {
    var v := Subscript(d, idField);
    if v.Err? {
      return Err(v.error), "";
    }
    assert TopOf(q.history) == Some(SET);
    r, sent := WhereAndRun(q, NameStr(idField), v.value, engine);
  }

  /** The checks and the in-place fill `update_entry` runs on a record before writing it: they
      succeed exactly when `UpdatePlan` does, leaving its dict in the record, and report the
      table's primary key. */
  method PrepareUpdate(cat: Catalog, entry: DatabaseEntry, part: bool, fillNull: bool) returns (r: Result<Option<string>>)
    modifies entry
    ensures entry.data == AfterUpdateSteps(cat, entry.table, old(entry.data), fillNull)
    ensures match UpdatePlan(cat, entry.table, old(entry.data), part, fillNull)
      case Err(e) => r == Err(e)
      case Ok(ready) => r == Ok(IdField(cat, entry.table.value, false).value) && entry.data == ready
  {
    var idField := GetTableIdField(cat, NameStr(entry.table), false);
    if idField.Err? {
      return Err(idField.error);
    }
    if entry.table.None? || !IsTable(cat, entry.table.value) {
      return Err(DatabaseError(NoSuchTable));
    }
    if fillNull {
      var filled := FillNull(cat, entry);
      if filled.Err? {
        return Err(filled.error);
      }
    }
    var tableFields := GetColumnNames(cat, entry.table.value);
    if tableFields.Err? {
      return Err(tableFields.error);
    }
    if NameSet(tableFields.value) != KeySet(entry.data) {
      if !(part && KeySet(entry.data) <= NameSet(tableFields.value)) {
        return Err(DatabaseError(FieldMismatch));
      }
    }
    r := Ok(idField.value);
  }

  /** `update_entry`: wraps a plain dict (which needs a truthy table name) in a new record,
      reads the primary key, checks the table, optionally fills the record in place, checks the
      key sets and sends `UPDATE ... SET ... WHERE <key> = <value>`. */
  method UpdateEntry(cat: Catalog, arg: EntryArg, table: Option<string>, part: bool, fillNull: bool, engine: Answer)
    returns (r: Result<Done>, sent: string)
    modifies arg.Footprint()
    ensures arg.PlainDict? && !NameTruthy(table) ==> r == Err(DatabaseError(NoTableGiven)) && sent == ""
    ensures arg.Record? || NameTruthy(table) ==>
      var tag := TagOf(arg, table);
      var d := if arg.PlainDict? then arg.dict else old(arg.entry.data);
      (arg.Record? ==> arg.entry.data == AfterUpdateSteps(cat, tag, d, fillNull)) &&
      match UpdatePlan(cat, tag, d, part, fillNull)
      case Err(e) => r == Err(e) && sent == ""
      case Ok(ready) =>
        match UpdateSql(tag.value, ready, IdField(cat, tag.value, false).value)
        case Err(e) => r == Err(e) && sent == ""
        case Ok(text) =>
          sent == text
          && DataRun(engine, r)
  {
    var entry: DatabaseEntry;
    match arg {
      case PlainDict(dict) =>
        if !NameTruthy(table) {
          return Err(DatabaseError(NoTableGiven)), "";
        }
        entry := new DatabaseEntry(dict, table);
      case Record(e) =>
        entry := e;
    }
    var idField := PrepareUpdate(cat, entry, part, fillNull);
    if idField.Err? {
      return Err(idField.error), "";
    }
    r, sent := RunUpdate(cat, entry.table.value, entry.data, idField.value, engine);
  }

  /** The statement DELETE_FROM(t).WHERE(idField, value) builds. */
  function DeleteWhereSql(t: string, idField: Option<string>, value: Value): Result<string>
  {
    if idField.None? && value == Text("") then Err(AttributeError)
    else
    match WhereText(NameStr(idField), value)
    case Err(e) => Err(e)
    case Ok(w) => Ok("DELETE FROM " + t + " " + w)
  }

  /** The statement `delete_entry_by_id` sends: the primary-key lookup, the table check of
      DELETE_FROM, then the clause on the key (which reads "None" when the table has none). */
  function DeleteByIdSql(cat: Catalog, table: string, id: Value): Result<string>
  {
    match IdField(cat, table, false)
    case Err(e) => Err(e)
    case Ok(idField) =>
      if !IsTable(cat, table) then Err(QueryError(NoSuchTable))
      else DeleteWhereSql(table, idField, id)
  }

  /** The statement `delete_entry` sends for a record: as `delete_entry_by_id` with the record's
      value under the primary key, which must be present (KeyError otherwise). */
  function DeleteEntrySql(cat: Catalog, tag: Option<string>, d: Dict): Result<string>
  {
    match IdField(cat, NameStr(tag), false)
    case Err(e) => Err(e)
    case Ok(idField) =>
      if tag.None? || !IsTable(cat, tag.value) then Err(QueryError(NoSuchTable))
      else
        match Subscript(d, idField)
        case Err(e) => Err(e)
        case Ok(v) => DeleteWhereSql(tag.value, idField, v)
  }

  /** Deleting a record sends what deleting by its id sends; a record of a table without
      primary key cannot be deleted. */
  lemma DeleteEntryIsById(cat: Catalog, t: string, d: Dict)
    requires IsTable(cat, t) && IdField(cat, t, false).Ok?
    ensures IdField(cat, t, false).value.None? ==> DeleteEntrySql(cat, Some(t), d) == Err(KeyError)
    ensures IdField(cat, t, false).value.Some? && IdField(cat, t, false).value.value in KeySet(d) ==>
      DeleteEntrySql(cat, Some(t), d) == DeleteByIdSql(cat, t, Lookup(d, IdField(cat, t, false).value.value).value)
  {
  }

  /** delete by an integer id tests the primary key against the id's numeral; without a primary
      key the clause names a column "None". */
  lemma DeleteByIntId(cat: Catalog, t: string, id: int)
    requires IsTable(cat, t) && IdField(cat, t, false).Ok?
    ensures DeleteByIdSql(cat, t, Int(id)) ==
      Ok("DELETE FROM " + t + " " + ("WHERE " + NameStr(IdField(cat, t, false).value) + " = " + IntToDecimal(id)))
  {
    var col := NameStr(IdField(cat, t, false).value);
    assert SqlLiteral(Int(id)) == Ok(IntToDecimal(id));
    assert WhereText(col, Int(id)) == Ok("WHERE " + col + " = " + IntToDecimal(id));
  }

  /** Deleting by the empty string writes a bare `WHERE <key> ` clause; on a table without a
      primary key that clause is built on None, whose missing `find` raises AttributeError. */
  lemma DeleteByEmptyId(cat: Catalog, t: string)
    requires IsTable(cat, t) && IdField(cat, t, false).Ok?
    ensures IdField(cat, t, false).value.None? ==> DeleteByIdSql(cat, t, Text("")) == Err(AttributeError)
    ensures IdField(cat, t, false).value.Some? ==>
      DeleteByIdSql(cat, t, Text("")) == Ok("DELETE FROM " + t + " " + ("WHERE " + IdField(cat, t, false).value.value + " "))
  {
  }

  /** `DELETE_FROM(t)` on a new query bound to the database. */
  method StartDelete(cat: Catalog, t: string) returns (q: Query)
    requires IsTable(cat, t)
    ensures fresh(q) && q.Valid() && q.db == Some(cat) && q.fields == NoFields
    ensures q.history == [DELETE_FROM] && q.sql == "DELETE FROM " + t + " "
  {
    q := new Query(Some(cat));
    assert TopOf(q.history) == None;
    var delete := q.DeleteFrom(t);
  }

  /** `DELETE_FROM(t).WHERE(idField, value).run()` on a query bound to the database. */
  method RunDelete(cat: Catalog, t: string, idField: Option<string>, value: Value, engine: Answer)
    returns (r: Result<Done>, sent: string)
    requires IsTable(cat, t)
    ensures DeleteWhereSql(t, idField, value).Err? ==> r == Err(DeleteWhereSql(t, idField, value).error) && sent == ""
    ensures DeleteWhereSql(t, idField, value).Ok? ==> sent == DeleteWhereSql(t, idField, value).value && DataRun(engine, r)
  {
    var q := StartDelete(cat, t);
    assert TopOf(q.history) == Some(DELETE_FROM);
    if idField.None? && value == Text("") {
      // WHERE(None, "") appends its text and then calls `find` on None
      return Err(AttributeError), "";
    }
    r, sent := WhereAndRun(q, NameStr(idField), value, engine);
  }

  /** `delete_entry`: reads the primary key of the record's table and deletes the row holding
      the record's value under it. */
  method DeleteEntry(cat: Catalog, entry: DatabaseEntry, engine: Answer) returns (r: Result<Done>, sent: string)
    ensures DeleteEntrySql(cat, entry.table, entry.data).Err? ==> r == Err(DeleteEntrySql(cat, entry.table, entry.data).error) && sent == ""
    ensures DeleteEntrySql(cat, entry.table, entry.data).Ok? ==> sent == DeleteEntrySql(cat, entry.table, entry.data).value && DataRun(engine, r)
  {
    var idField := GetTableIdField(cat, NameStr(entry.table), false);
    if idField.Err? {
      return Err(idField.error), "";
    }
    if entry.table.None? || !IsTable(cat, entry.table.value) {
      return Err(QueryError(NoSuchTable)), "";
    }
    var v := Subscript(entry.data, idField.value);
    if v.Err? {
      return Err(v.error), "";
    }
    r, sent := RunDelete(cat, entry.table.value, idField.value, v.value, engine);
  }

  /** `delete_entry_by_id`: reads the primary key of the table and deletes the row holding `id`
      under it. */
  method DeleteEntryById(cat: Catalog, table: string, id: Value, engine: Answer) returns (r: Result<Done>, sent: string)
    ensures DeleteByIdSql(cat, table, id).Err? ==> r == Err(DeleteByIdSql(cat, table, id).error) && sent == ""
    ensures DeleteByIdSql(cat, table, id).Ok? ==> sent == DeleteByIdSql(cat, table, id).value && DataRun(engine, r)
  {
    var idField := GetTableIdField(cat, table, false);
    if idField.Err? {
      return Err(idField.error), "";
    }
    if !IsTable(cat, table) {
      return Err(QueryError(NoSuchTable)), "";
    }
    r, sent := RunDelete(cat, table, idField.value, id, engine);
  }

  // ---------------------------------------------------------------------------------------
  // get_entry_by_id

  /** The query `get_entry_by_id` sends once the table has a primary key and exists: the id is
      rendered with `str()`, not as a literal. */
  function ByIdQuery(table: string, idField: Option<string>, id: Value): string
  {
    "SELECT * FROM " + table + " WHERE " + NameStr(idField) + " = " + PyStr(id)
  }

  /** `get_entry_by_id`: requires a primary key (DatabaseError otherwise) and an existing table,
      sends the query, and decodes the one row the engine must answer with (DatabaseError for none
      or several). The engine's own errors pass through. */
  method GetEntryById(cat: Catalog, table: string, id: Value, answer: Answer)
    returns (r: Result<DatabaseEntry>, sent: string)
    ensures IdField(cat, table, true).Err? ==> r == Err(IdField(cat, table, true).error) && sent == ""
    ensures IdField(cat, table, true).Ok? && !IsTable(cat, table) ==> r == Err(DatabaseError(NoSuchTable)) && sent == ""
    ensures IdField(cat, table, true).Ok? && IsTable(cat, table) ==>
      sent == ByIdQuery(table, IdField(cat, table, true).value, id)
      && (!answer.Rows? ==> r == Err(EngineError))
      && (answer.Rows? && |answer.rows| == 0 ==> r == Err(DatabaseError(NoEntry)))
      && (answer.Rows? && |answer.rows| > 1 ==> r == Err(DatabaseError(ManyEntries)))
      && (answer.Rows? && |answer.rows| == 1 ==>
            match ColumnNames(cat, table)
            case Err(e) => r == Err(e)
            case Ok(names) =>
              (r.Ok? <==> |answer.rows[0]| == |names|)
              && (r.Err? ==> r.error == DatabaseError(WidthMismatch))
              && (r.Ok? ==> fresh(r.value) && r.value.table == Some(table)
                            && r.value.data == RowDict(names, answer.rows[0])))
  {
    var idField := GetTableIdField(cat, table, true);
    if idField.Err? {
      return Err(idField.error), "";
    }
    if !IsTable(cat, table) {
      return Err(DatabaseError(NoSuchTable)), "";
    }
    sent := "SELECT * FROM " + table + " WHERE " + NameStr(idField.value) + " = " + PyStr(id);
    if !answer.Rows? {
      return Err(EngineError), sent;
    }
    var rows := answer.rows;
    if |rows| != 1 {
      if |rows| > 1 {
        return Err(DatabaseError(ManyEntries)), sent;
      }
      return Err(DatabaseError(NoEntry)), sent;
    }
    var names := GetColumnNames(cat, table);
    if names.Err? {
      return Err(names.error), sent;
    }
    r := FromRawEntry(rows[0], FieldList(names.value), table);
  }

  /** For a table with a primary key, the id `get_entry_by_id` asks for is the key's value: an
      integer id appears as its numeral. */
  lemma ByIdQueryNamesKey(cat: Catalog, table: string, id: int)
    requires IdField(cat, table, true).Ok?
    ensures IdField(cat, table, true).value.Some?
    ensures ByIdQuery(table, IdField(cat, table, true).value, Int(id))
      == "SELECT * FROM " + table + " WHERE " + IdField(cat, table, true).value.value + " = " + IntToDecimal(id)
  {
  }
}
