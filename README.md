# sqlite-integrated, modelled in Dafny

This project models the core of `sqlite_integrated`, a small Python layer over SQLite. It does not
model the engine. The core it models has three parts:

- **The `Query` builder** (`queries.dfy`). This is a class with `sql`, `history`, `fields`,
  `table` and `col` fields.
  - Each clause method first checks that the clause on top of `history` may precede it. It then
    validates names against the attached database, if any, pushes its own tag and extends `sql`.
  - `run` hands the text to the engine. It then returns the raw rows or decodes them into records.
  - The attached database is a *catalog*: for each table, the rows `PRAGMA table_info` and
    `PRAGMA foreign_key_list` would return.
- **Literal encoding and row decoding** (`utils.dfy`, `entries.dfy`, with `text.dfy` and
  `data.dfy` underneath).
  - `Value` is a closed datatype of the Python values the library handles. Any other value (a
    tuple, a dict, bytes) is `Other`, which carries its `repr` and its truthiness, so an empty
    tuple is falsy as in Python.
  - `Dict` is an insertion-ordered dict with distinct keys.
  - SQL string literals (section 5.3 of ISO/IEC 9075-2, `<character string literal>`) are shown to
    read back to the string they quote.
  - Integer numerals are shown to read back to the integer.
  - Rows are zipped with their field names into table-tagged `DatabaseEntry` objects. This is a
    class, because `fill_null`, `add_entry` and `update_entry` update entries in place.
- **The `Database` facade** (`schema.dfy`, `facade.dfy`). It covers:
  - `ForeignKey.to_sql` and the `Column` primary-key type rule;
  - decoding of the pragma rows into columns, with foreign-key attachment;
  - primary-key lookup and column names;
  - the `CREATE TABLE` text;
  - `fill_null`;
  - the checks and text of `add_entry`, `update_entry`, `delete_entry`, `delete_entry_by_id`,
    `get_entry_by_id` and `get_table_raw`.

Each operation that would execute SQL does two things in the model:
- It takes what the engine answers as a parameter (`Answer`: rows, an `OperationalError` or some
  other engine error).
- It returns the text it sends as `sent`.

Python exceptions become the `Err` case of `Result`. The `Error` datatype names the exception
class, and for `QueryError`/`DatabaseError` also the reason.

The model follows the code where it behaves differently from what its documentation suggests:
- `raw_table_to_table` raises `DatabaseError` without importing it, so the model gives `NameError`
  where iterating its result would raise (see `Entries.RawTableToTable` under "## Left out").
- `add_entry` decides what to return from its `table` argument, not from the entry's own table.
- `add_entry` builds its missing-table message from `self.table`, which a `Database` does not
  have, so the model gives `AttributeError` instead of the intended `DatabaseError`.
- `delete_entry_by_id` with the default-like id `""` on a table without a primary key calls
  `WHERE(None, "")`, which calls `find` on None, so the model gives `AttributeError` and sends
  nothing.
- A foreign key whose `to` column the pragma reports as NULL holds None there, and `to_sql` and
  `create_table` print it as `None`.
- `get_entry_by_id` looks up the primary key before it checks that the table exists, so a missing
  table fails at that first lookup.
- `SET`/`VALUES` on a query without a database test keys against `fields = None`, which raises
  `TypeError`.
- The result of `run` with `fields = None` raises `TypeError` when it is iterated over a non-empty
  answer from `DELETE_FROM`. The model reports that error from `run` itself.

## Model

| member | source | states |
|---|---|---|
| Text.Remove | src/sqlite_integrated/utils.py:6 | `s.replace(c, "")` leaves no `c`, is shorter by the number of `c`s, and keeps every other character's count |
| Text.Split | src/sqlite_integrated/utils.py:6 | `split(c)` gives one piece more than there are `c`s, and no piece contains `c` |
| Text.JoinSplit | src/sqlite_integrated/utils.py:6 | joining the pieces of `split(c)` with `c` gives the string back |
| Text.SplitJoin | src/sqlite_integrated/utils.py:6 | splitting a join of separator-free pieces gives the pieces back |
| Text.Upper | src/sqlite_integrated/database.py:51 | `upper()` maps each character through ASCII upper-casing and keeps the length |
| Text.NatToDecimal | src/sqlite_integrated/utils.py:13-14 | `str(n)` is a non-empty digit string with no leading zero |
| Text.NatToDecimalValue | src/sqlite_integrated/utils.py:13-14 | the numeral of `n` has value `n` |
| Text.IntToDecimalRoundTrip | src/sqlite_integrated/utils.py:13-14 | `str(i)` of any integer, negative included, parses back to `i` |
| Data.Keys | src/sqlite_integrated/query.py:215 | `list(d)` lists the keys in insertion order |
| Data.Vals | src/sqlite_integrated/query.py:215 | `d.values()` lists the values in that same order |
| Data.Lookup | src/sqlite_integrated/database.py:697 | `d[k]` finds a value exactly when `k` is a key, and finds the value stored under it |
| Data.PutKeys | src/sqlite_integrated/database.py:640 | `d[k] = v` adds exactly `k` to the keys; the key order changes only when `k` is new, and then `k` goes last |
| Data.LookupPut | src/sqlite_integrated/database.py:640 | after `d[k] = v`, reading `k` gives `v` and every other key reads as before |
| Utils.StringToList | src/sqlite_integrated/utils.py:3-6 | one item more than there are commas; no item has a space or a comma; joining with commas gives the space-free input |
| Utils.DoubleQuotes | src/sqlite_integrated/utils.py:12 | doubling quotes gives exactly twice as many quotes |
| Utils.QuoteRoundTrip | src/sqlite_integrated/utils.py:11-12 | the literal of a string reads back as the string |
| Utils.QuoteOnlyForm | src/sqlite_integrated/utils.py:11-12 | every well-formed literal is the quoting of what it reads as, so quoting is a bijection onto well-formed literals |
| Utils.SqlLiteral | src/sqlite_integrated/utils.py:8-25 | TypeError exactly for a list holding a non-string and for a value of any other type |
| Utils.SqlLiteralReadsBack | src/sqlite_integrated/utils.py:11-21 | a string's literal reads back as the string and an int's as the int; None gives `null`, which is no string's literal; a non-empty list of comma-free strings splits back into its items |
| Utils.Literals | src/sqlite_integrated/query.py:215 | one literal per value in order, or TypeError when some value has none |
| Utils.Assignments | src/sqlite_integrated/utils.py:30-32 | one `key = literal` item per key in key order, or TypeError when some value has no literal |
| Utils.DictToSql | src/sqlite_integrated/utils.py:27-33 | the loop builds the `", "` join of the assignments; the empty dict gives `""` |
| Entries.DatabaseEntry.constructor | src/sqlite_integrated/entry.py:16-18 | the entry has the given table tag and contents |
| Entries.RowDictKeys | src/sqlite_integrated/entry.py:46-47 | the zipped dict has exactly the field names as keys |
| Entries.RowDictLookup | src/sqlite_integrated/entry.py:46-47 | each field reads back the row value at the position where that name last occurs |
| Entries.RowDictZip | src/sqlite_integrated/entry.py:46-47 | with distinct names, the i-th pair is the i-th field and the i-th row value |
| Entries.RowDictReadBack | src/sqlite_integrated/entry.py:46-49 | with distinct names, the keys are the fields and the values are the row |
| Entries.ZipRow | src/sqlite_integrated/utils.py:55-57 | the loop zips fields with the row; IndexError when the row is shorter than the fields |
| Entries.FromRawEntry | src/sqlite_integrated/entry.py:36-49 | ValueError for a spec that is neither list nor string; DatabaseError on a width mismatch; otherwise a new entry tagged `table_name` holding the zip |
| Entries.RawTableToTable | src/sqlite_integrated/utils.py:49-58 | no rows gives no records; only the first row's width is checked (NameError); one new record per row in order, each tagged and zipped |
| Entries.DecodeBothWays | tests/test_database.py:94-100 | decoding one row alone gives the same tag and contents as the record the table decoding gives for that row |
| Schema.ForeignKeyToSql | src/sqlite_integrated/database.py:37-43 | the `FOREIGN KEY ... REFERENCES ...` head, then ` ON UPDATE x` if set, then ` ON DELETE y` if set: the exact text for each of the four combinations |
| Schema.NewColumn | src/sqlite_integrated/database.py:49-75 | DatabaseError exactly for a primary key whose type does not upper-case to INTEGER; otherwise the fields as given, and a foreign key gets `from_col` set to the name |
| Schema.IntegerTypeSpellings | src/sqlite_integrated/database.py:51 | a type is accepted exactly when each of its seven letters is that letter of INTEGER in either case |
| Schema.PrimaryKeyTypeExamples | tests/test_database.py:401-408 | `integer` and `INTEGER` are accepted as primary-key types; `int`, `INT` and `text` are refused |
| Schema.DecodeColumns | src/sqlite_integrated/database.py:368-375 | one column per pragma row in order, or DatabaseError for a bad primary-key type |
| Schema.GetTableCols | src/sqlite_integrated/database.py:354-399 | the two loops compute the decoded columns with the foreign keys attached |
| Schema.FirstNamedMeaning | src/sqlite_integrated/database.py:395-398 | the column found is the first one with that name; none is found when no column has it |
| Schema.TableColsDecoded | src/sqlite_integrated/database.py:368-375 | column i has row i's name, type, default and id; primary key iff `pk == 1`; not null iff `notnull == 1` |
| Schema.TableColsFails | src/sqlite_integrated/database.py:375 | decoding fails exactly when some primary-key row has a non-INTEGER type, and then with DatabaseError |
| Schema.TableColsForeignKeys | src/sqlite_integrated/database.py:382-398 | a column that no foreign key names has none; otherwise it holds the last foreign key whose first same-named column it is |
| Schema.AttachAllUntouched | src/sqlite_integrated/database.py:395-398 | attaching leaves alone every column that none of the keys picks |
| Schema.AttachAllLast | src/sqlite_integrated/database.py:395-398 | a column ends up with the last key that picks it |
| Schema.ColumnNamesMeaning | src/sqlite_integrated/database.py:519-536 | DatabaseError for a missing table; otherwise the names of the pragma rows in order, whenever the columns decode |
| Schema.GetColumnNames | src/sqlite_integrated/database.py:519-536 | the loop collects the column names |
| Schema.IsColumn | src/sqlite_integrated/database.py:538-552 | true exactly when some column has the name; fails as `get_column_names` fails |
| Schema.FirstPrimaryKeyMeaning | src/sqlite_integrated/database.py:415-417 | the column found is the first primary-key column; none is found when there is none |
| Schema.GetTableIdField | src/sqlite_integrated/database.py:401-420 | the loop returns the first primary-key name, otherwise None, or DatabaseError with `do_error` |
| Schema.IdFieldMeaning | src/sqlite_integrated/database.py:401-420 | the name returned is that of the first `pk == 1` row; None or the error only when no row is a primary key |
| Queries.PrefixCheckIsShape | src/sqlite_integrated/query.py:40-48 | the prefix check accepts a clause exactly when the extended history is still a well-formed statement shape |
| Queries.WhereTextCases | src/sqlite_integrated/query.py:113-121 | the default `""` gives the bare column; None gives `is null`; any other value gives an equality with its literal, or TypeError |
| Queries.Query.constructor | src/sqlite_integrated/query.py:20-37 | a new query is empty: no text, no history, no fields, no table |
| Queries.Query.ValidPrefixes | src/sqlite_integrated/query.py:40-48 | accepts exactly when the last clause (None for an empty history) is one of the prefixes; QueryError otherwise |
| Queries.Query.Push | src/sqlite_integrated/query.py:61 | pushing an allowed clause keeps the history well formed and changes nothing else |
| Queries.Query.Select | src/sqlite_integrated/query.py:60-74 | a bad prefix changes nothing; `"*"` keeps the sentinel, another string is split, a list is stored and shown `", "`-joined; any other type raises QueryError after the push |
| Queries.Query.From | src/sqlite_integrated/query.py:86-97 | records the table; with a database, unknown selected fields raise QueryError; succeeds exactly when the fields are `"*"` or known; then pushes FROM and appends `FROM t ` |
| Queries.Query.Where | src/sqlite_integrated/query.py:111-122 | a bad prefix changes nothing; otherwise pushes WHERE and appends the clause text (or fails with TypeError); `col` is set only for the default value without `=` |
| Queries.Query.Like | src/sqlite_integrated/query.py:134-137 | pushes LIKE and appends the literal of the pattern; a string pattern is quoted |
| Queries.Query.Update | src/sqlite_integrated/query.py:149-157 | with a database, a missing table raises QueryError and the fields become its columns; records the table and appends `UPDATE t ` |
| Queries.Query.Set | src/sqlite_integrated/query.py:169-179 | keys outside the fields raise QueryError; otherwise appends `SET` and the assignments |
| Queries.Query.InsertInto | src/sqlite_integrated/query.py:191-197 | records the table; with a database the fields become its columns; appends `INSERT INTO t ` |
| Queries.Query.Values | src/sqlite_integrated/query.py:209-216 | keys outside the fields raise QueryError; otherwise the column list and the literal list, in the same key order |
| Queries.Query.DeleteFrom | src/sqlite_integrated/query.py:228-234 | with a database, a missing table raises QueryError; otherwise the text is replaced by `DELETE FROM t ` |
| Queries.Query.Run | src/sqlite_integrated/query.py:251-273 | QueryError without a database; the engine's failures; raw rows unchanged; `"*"` replaced by the table's columns; rows decoded in order, none giving none |
| Queries.SelectWhereExample | src/sqlite_integrated/query.py:60-122 | `SELECT().FROM("customers").WHERE("CustomerId", 1)` builds `SELECT * FROM customers WHERE CustomerId = 1` |
| Queries.OutOfOrderExample | src/sqlite_integrated/query.py:111 | WHERE on a new query is refused and leaves the text empty |
| Facade.CreateTable | src/sqlite_integrated/database.py:159-186 | the loops build the column lines and then the foreign-key constraints, `,\n`-separated and closed by `\n)` |
| Facade.ColumnDefMeaning | src/sqlite_integrated/database.py:164-174 | a column line starts with the quoted name and the type; the rest starts with PRIMARY KEY exactly for a primary key, continues with NOT NULL exactly for a NOT NULL column, and ends with `DEFAULT <repr>` exactly for a truthy default |
| Facade.AppendForeignKeys | src/sqlite_integrated/database.py:176-183 | each foreign key in column order adds its constraint, with its actions on lines of their own |
| Facade.TerminatedJoin | src/sqlite_integrated/database.py:174-186 | terminating every item with `,\n` and trimming the last terminator is the `,\n` join |
| Facade.RemoveFirstCount | src/sqlite_integrated/database.py:567 | `list.remove(x)` takes away exactly one `x` |
| Facade.RemovedMeaning | src/sqlite_integrated/database.py:564-567 | removing the entry's keys succeeds exactly when they are a sub-multiset of the columns, leaving the rest |
| Facade.FillNullAccepts | src/sqlite_integrated/database.py:564-567 | the fill succeeds exactly when every key is a column; otherwise ValueError |
| Facade.FillNullFills | src/sqlite_integrated/database.py:564-570 | after the fill the keys are exactly the columns, and every added column holds None |
| Facade.FillNullKeeps | src/sqlite_integrated/database.py:564-570 | existing values are unchanged by the fill |
| Facade.FillNull | src/sqlite_integrated/database.py:554-570 | the entry is filled in place, or left unchanged with the error |
| Facade.RemoveAll | src/sqlite_integrated/database.py:566-567 | the loop removes each key once, in order |
| Facade.PutNullsInPlace | src/sqlite_integrated/database.py:568-569 | the loop stores None under each remaining column |
| Facade.SelectionNamesColumns | src/sqlite_integrated/database.py:324-330 | an accepted list names only columns of the table and splits back into the requested names |
| Facade.GetTableRaw | src/sqlite_integrated/database.py:310-335 | ValueError for a non-list; DatabaseError for an unknown name; otherwise `SELECT <selection> FROM t` and the engine's rows |
| Facade.InsertPlanIdIsNull | src/sqlite_integrated/database.py:637-646 | an accepted insert has exactly the table's columns, and None under the primary key |
| Facade.InsertPlanFilled | src/sqlite_integrated/database.py:639-646 | with `fill_null`, the insert is accepted exactly when the keys are columns and is never refused for field mismatch |
| Facade.InsertPlanStrict | src/sqlite_integrated/database.py:639-646 | without `fill_null`, the insert is accepted exactly when the keys equal the columns |
| Facade.RunInsert | src/sqlite_integrated/database.py:648 | sends `INSERT INTO t (keys) VALUES (literals) ` in one key order |
| Facade.PrepareRecord | src/sqlite_integrated/database.py:632-646 | the entry is updated in place as the checks go; the result is the insert plan |
| Facade.AddEntry | src/sqlite_integrated/database.py:607-657 | a dict without a table is refused; a missing table raises AttributeError; then the plan, the insert text and the engine's answer; the id comes from the `table` argument |
| Facade.InsertedIdMeaning | src/sqlite_integrated/database.py:653-657 | the last row id exactly when the first primary-key column of the table named by the `table` argument has a name, None otherwise |
| Facade.Subscript | src/sqlite_integrated/database.py:697 | `entry[id_field]` finds the value, or KeyError |
| Facade.WhereTextReadsBack | src/sqlite_integrated/query.py:117 | an equality clause holds a literal that reads back as the integer or string compared |
| Facade.WhereAndRun | src/sqlite_integrated/query.py:111-122 | WHERE then run sends the text with the clause appended |
| Facade.UpdatePlan | src/sqlite_integrated/database.py:678-695 | an accepted update names an existing table with a primary-key lookup that succeeds, and only its columns |
| Facade.UpdatePlanAccepts | src/sqlite_integrated/database.py:692-695 | without `fill_null`: accepted exactly when the keys equal the columns, or `part` is set and they are a subset; otherwise DatabaseError |
| Facade.UpdatePlanFilled | src/sqlite_integrated/database.py:688-695 | with `fill_null`: accepted exactly when the keys are columns (else ValueError); then the keys are all the columns and `part` does not matter |
| Facade.UpdateSqlSelectsById | src/sqlite_integrated/database.py:697 | without a primary key the statement fails; otherwise `UPDATE t SET ... WHERE <id> = <literal>` |
| Facade.RunUpdate | src/sqlite_integrated/database.py:697 | sends the update statement built by the clause chain |
| Facade.PrepareUpdate | src/sqlite_integrated/database.py:678-695 | the entry is updated in place as the checks go; the result is the update plan and the primary key |
| Facade.UpdateEntry | src/sqlite_integrated/database.py:660-697 | a dict without a table is refused; then the plan, the statement and the engine's answer |
| Facade.DeleteEntryIsById | src/sqlite_integrated/database.py:702-729 | deleting an entry is deleting by the value under its primary key; KeyError without one |
| Facade.DeleteByIntId | src/sqlite_integrated/database.py:716-729 | delete by an integer id compares the primary key with the id's numeral |
| Facade.DeleteEntry | src/sqlite_integrated/database.py:702-713 | sends the delete statement for the entry |
| Facade.DeleteEntryById | src/sqlite_integrated/database.py:716-729 | sends the delete statement for the id, or nothing when building it fails (AttributeError for id `""` without a primary key) |
| Facade.DeleteByEmptyId | src/sqlite_integrated/database.py:716-729 | deleting by `""` sends a bare `WHERE <key> ` clause, and raises AttributeError on a table without a primary key |
| Facade.GetEntryById | src/sqlite_integrated/database.py:573-605 | the primary key is required first, then the table; zero or several rows are refused; one row is decoded into an entry tagged with the table |
| Facade.ByIdQueryNamesKey | src/sqlite_integrated/database.py:585-590 | the query compares the primary key with the id's numeral |

## Left out

- The engine and the connection are not modelled: executing, fetching, `last_insert_rowid`, opening,
  saving, closing, reconnecting and the foreign-keys pragma. The engine's answer and the last row id
  are parameters instead.
- `get_table_names` is the catalog's key set.
- Export to pandas and CSV, `table_overview`/`overview`, `__repr__` and all printing and verbose
  output are left out, because they produce output only.
- Floats: a float is carried as the text Python's `str()` gives it, since float formatting is not
  modelled.
- `repr` of a string is single-quote wrapping. Python's switch to double quotes and its escapes are
  not modelled.
- `upper()` is ASCII-only upper-casing.
- `rename_table`, `delete_table`, `add_column`, `rename_column`, `delete_column`, `run_raw_sql`,
  `__eq__`, the `Database.SELECT`/`UPDATE`/`INSERT_INTO`/`DELETE_FROM` shortcuts and the older
  copies of the package are left out. They are thin wrappers whose effect is in the engine, or not
  part of the live package.
- Entries.RawTableToTable, Queries.Query.Run: `raw_table_to_table` is a generator, so `run` and
  `get_table` return without raising, and all three decoding errors are raised only when the result
  is iterated. These are the NameError for a first row of the wrong width, the TypeError for
  `fields = None`, and the IndexError for a short row (only when the generator reaches that row).
  The model decodes eagerly and returns these errors from the call itself. A result nobody iterates
  raises none of them in Python.
- `get_table` appears only through `Entries.DecodeBothWays`, which decodes one row both ways.
- For a data statement (`INSERT`, `UPDATE`, `DELETE`), the result of an answer with rows is left
  unspecified. Only an empty answer, an `OperationalError` and another engine error are pinned down.
- `ForeignKey` is a value. The model therefore does not capture the Python aliasing by which `Column`
  writes `from_col` into the caller's object.
- `SELECT` lists given as Python lists are lists of strings. A list with other items, which makes
  `", ".join` raise TypeError, is not modelled.
- An omitted `table` argument is the string `"None"` where the source formats it or looks it up.
