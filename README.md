# LWC `Table`: creating a table from its column list

This project models the `Table` class of LWC's SQL layer
(`src/main/java/com/griefcraft/sql/Table.java`). A `Table` holds a database
handle, a name, an "in memory" flag and an ordered list of columns. Columns
are added one by one, and each added column is told which table owns it.
`execute` builds a `CREATE TABLE IF NOT EXISTS` statement piece by piece:

- the configured table-name prefix (a missing one counts as empty) and the name;
- one clause per column, holding its name and type, then `PRIMARY KEY `, then
  `AUTO_INCREMENT ` (MySQL only), then `DEFAULT <value> `;
- `", "` between columns;
- ` ) `, then `ENGINE = MEMORY` for an in-memory table on MySQL, then `;`.

It sends the text on a fresh JDBC statement, closes that statement on every
path, swallows driver errors, and counts one query as in-memory or on-disk.

Modules:

- `Wrappers`: `Option`, which stands for a Java reference that may be null.
- `Strings`: generic facts about concatenated strings, and `PlacedAt`, a
  predicate saying "this piece sits at this offset, followed by that text".
- `Ddl`: the statement as pure functions (`Clause`, `Clauses`, `Join`,
  `Header`, `Trailer`, `Render`), with lemmas about its shape.
- `Util`: the `Performance` query counters, as a class with two `nat` fields.
- `Sql`: the imperative model, made of these classes:
  - `Table`, with its fields and methods;
  - `Column`, whose `table` back-pointer `addColumn` sets;
  - the JDBC side it uses: `Database`, `Connection` and `Statement`.

  `Table.CreateStatementText` is the `StringBuilder` loop, proved equal to
  `Ddl.Render`. `Table.Execute` wraps it with the statement's life cycle and
  the counter update.

What the code does, and therefore what the model does:

- The prefix is applied on every backend, even though the comment on line 75
  mentions MySQL only.
- A table without columns renders `(  ) ;`: two spaces inside the
  parentheses, and a space before the semicolon even when no engine clause
  follows.
- Every column clause ends with a space, and ` ) ` adds another. So the last
  column is followed by two spaces before the `)`, not one. For example, for
  an `id INTEGER` primary-key column and an `owner VARCHAR(64)` column, the
  list ends with `owner VARCHAR(64)  ) ;`.
- Any backend other than MySQL behaves like SQLite here, because the code
  only ever tests for `Type.MySQL`.

## Model

| member | source | states |
|---|---|---|
| Sql.Table.constructor | src/main/java/com/griefcraft/sql/Table.java:51-56 | A new table has the given database and name, no columns and is not in memory; it trivially owns all its columns. |
| Sql.Table.AddColumn | src/main/java/com/griefcraft/sql/Table.java:63-67 | The column is appended at the end of the list, everything before it stays in order, its owner becomes this table, the memory flag is untouched (the name is a constant), and "every column points back to this table" is preserved. |
| Sql.Table.SetMemory | src/main/java/com/griefcraft/sql/Table.java:156-167 | After `setMemory(m)`, `isInMemory()` returns `m`; the columns are untouched (the name is a constant). |
| Sql.Table.CreateStatementText | src/main/java/com/griefcraft/sql/Table.java:72-125 | The text the builder loop produces, with the prefix read at call time and a missing prefix taken as empty, equals `Render` of the effective prefix, the name, the column definitions in order, the memory flag and the backend. |
| Sql.Table.Execute | src/main/java/com/griefcraft/sql/Table.java:72-150 | The table itself is untouched (columns, name, memory flag); every statement opened is closed again, whether creating, running or closing it fails; the backend receives exactly the rendered statement unless creating or running the statement fails; exactly one counter grows by one: the in-memory one when the table is in memory, the on-disk one otherwise, even after a failure. |
| Sql.AppendClause | src/main/java/com/griefcraft/sql/Table.java:88-107 | The per-column appends extend the buffer by exactly that column's clause. |
| Sql.AppendTrailer | src/main/java/com/griefcraft/sql/Table.java:116-125 | The closing appends extend the buffer by ` ) `, the engine clause, and one `;`. |
| Sql.Connection.CreateStatement | src/main/java/com/griefcraft/sql/Table.java:128-130 | Either no statement and nothing opened (driver failure), or a fresh statement on this connection that is now open; nothing is executed. |
| Sql.Statement.ExecuteUpdate | src/main/java/com/griefcraft/sql/Table.java:131-133 | The text is recorded by the backend exactly when the driver does not fail; the set of open statements is unchanged. |
| Sql.Statement.Close | src/main/java/com/griefcraft/sql/Table.java:134-140 | The statement is released whether or not the driver reports a failure; nothing is executed. |
| Util.Performance.AddMemDBQuery | src/main/java/com/griefcraft/sql/Table.java:146-147 | The in-memory counter grows by one; the on-disk counter is unchanged. |
| Util.Performance.AddPhysDBQuery | src/main/java/com/griefcraft/sql/Table.java:148-150 | The on-disk counter grows by one; the in-memory counter is unchanged. |
| Ddl.ClauseDecodes | src/main/java/com/griefcraft/sql/Table.java:90-107 | A column clause starts with name, space, type, space and ends with a space. The rest is read back by a strict parser that accepts only `PRIMARY KEY `, then `AUTO_INCREMENT `, then an optional `DEFAULT <value> `, in this order and with nothing after them. It yields PRIMARY KEY iff the column is primary, AUTO_INCREMENT iff the column asks for it and the backend is MySQL, and the default value verbatim. An empty default means no DEFAULT part. |
| Ddl.DefaultTextDecodes | src/main/java/com/griefcraft/sql/Table.java:103-107 | The DEFAULT part is empty iff the default value is empty. The strict parser reads it back to the value. A non-empty part starts with `D` and ends with a space. |
| Ddl.DefaultTextEncodes | src/main/java/com/griefcraft/sql/Table.java:103-107 | The converse round trip: any text the strict parser accepts as a DEFAULT part is exactly what rendering the parsed value produces. |
| Ddl.ClauseEndsWithSpace | src/main/java/com/griefcraft/sql/Table.java:90-107 | Every column clause is non-empty and ends with a space. |
| Ddl.ClausesEndWithSpace | src/main/java/com/griefcraft/sql/Table.java:87-107 | Each clause in the rendered column list ends with a space. |
| Ddl.ClausesSnoc | src/main/java/com/griefcraft/sql/Table.java:87-88 | Clauses follow the column order: a column added last contributes its clause last. |
| Ddl.JoinAppend | src/main/java/com/griefcraft/sql/Table.java:109-113 | Joining two non-empty runs of clauses gives the first run, one `", "`, and the second run: only neighbours are separated. |
| Ddl.ColumnListSnoc | src/main/java/com/griefcraft/sql/Table.java:87-114 | Adding a column at the end extends the column list by `", "` (only when columns came before) and the new clause. |
| Ddl.ColumnListStep | src/main/java/com/griefcraft/sql/Table.java:87-114 | One loop iteration turns the text for the first `i` columns into the text for the first `i + 1` columns. |
| Ddl.PartAt | src/main/java/com/griefcraft/sql/Table.java:109-114 | In the joined list, clause `i` sits at its offset; `", "` follows it when another clause follows, and it ends the list when it is the last. |
| Ddl.JoinedPartAt | src/main/java/com/griefcraft/sql/Table.java:87-117 | Inside any header, joined list and trailer opening with ` ) `, part `i` is followed by `", "`, or by ` ) ` when it is the last. |
| Ddl.RenderClauseAt | src/main/java/com/griefcraft/sql/Table.java:84-117 | In the statement, column `i`'s clause comes after the header at its offset, followed by `", "` when another column follows and by ` ) ` after the last. |
| Ddl.LastClauseEndsWithSpace | src/main/java/com/griefcraft/sql/Table.java:87-107 | With at least one column, the last clause of the list ends with a space. |
| Ddl.JoinedLastSpace | src/main/java/com/griefcraft/sql/Table.java:106-117 | When the last joined part ends with a space and ` ) ` follows the list, that space is immediately before the ` ) `. |
| Ddl.RenderClosingSpaces | src/main/java/com/griefcraft/sql/Table.java:106-117 | With at least one column, the character before the closing ` ) ` is a space, so the parenthesis follows two spaces. |
| Ddl.RenderHeader | src/main/java/com/griefcraft/sql/Table.java:73-84 | The statement starts with `CREATE TABLE IF NOT EXISTS `, the prefix, the name and ` ( `, whatever the columns. |
| Ddl.RenderPrefixInjective | src/main/java/com/griefcraft/sql/Table.java:76-83 | The prefix is part of the statement: equal statements for the same table have equal prefixes. |
| Ddl.RenderEmptyTable | src/main/java/com/griefcraft/sql/Table.java:84-125 | A table without columns renders `(  ) `, then the engine clause, then `;`. |
| Ddl.RenderEnding | src/main/java/com/griefcraft/sql/Table.java:117-125 | The statement ends with ` ) ENGINE = MEMORY;` iff the table is in memory and the backend is MySQL, and with ` ) ;` otherwise. |

## Left out

- LWC's configuration lookup (`LWC.getInstance().getConfiguration()`) is
  outside the model. The prefix it returns is a parameter of
  `CreateStatementText` and `Execute`, and `None` stands for `null`.
- Column.java, Database.java and Performance.java are not part of this model.
  A column is reduced to the five values the renderer reads, plus its owning
  table. The database is reduced to its dialect and connection. The
  performance counters are an object passed in, not static state.
- Sql.Table.Execute: a `null` default value is not modelled. In the code,
  `getDefaultValue().isEmpty()` on `null` throws a NullPointerException.
  The model's column default is always a string.
- JDBC is modelled only as seen from `execute`: open statements, the texts
  the backend accepted, and whether each driver call fails (an input). What
  the backend does with the text is not modelled: parsing, the existing
  tables, `IF NOT EXISTS`.
- A `null` table name, column name or column type is not modelled. The
  model's `string` fields cannot be null. Java's `StringBuilder.append`
  writes a null string as the four characters `null` (lines 83, 90 and 92),
  so the code renders, for example, `CREATE TABLE IF NOT EXISTS null ( `.
  Null objects are not modelled either. The model's `Column`, `Database`
  and `Connection` references are never null. In the code:
  - `addColumn(null)` throws a NullPointerException at line 64, before the
    list changes;
  - a null `database`, or a null result of `getConnection()`, throws a
    NullPointerException at line 130. `catch (SQLException)` does not catch
    it, so the counter update at lines 146-150 is skipped.
- Sql.Statement.Close: a close that fails is treated as having released the
  statement. The code ignores that exception and never retries.
- `printStackTrace` on a failed update, and the commented-out log line, are
  console output and are not modelled. Exceptions other than `SQLException`
  (runtime exceptions from the driver) are not modelled either.
- Concurrent use of one `Table` or of the shared counters is not modelled.
- `isInMemory` is the function `Sql.Table.IsInMemory`, with no contract of
  its own. What it returns is stated by `Sql.Table.SetMemory`.
- BaseAdminModule.java and NijiPermissions.java are callers and neighbours
  of `Table`. They are not part of this model.
