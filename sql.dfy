/**
 * A table definition that appends columns, renders its DDL and runs it once
 * against the database's connection, counting the query.
 */
module Sql {
  import opened Wrappers
  import opened Ddl
  import opened Strings
  import Util

  /**
   * The database handle a table belongs to: its dialect and the connection
   * statements are created on.
   */
  class Database {
    const dbType: DatabaseType
    const connection: Connection

    constructor (dbType: DatabaseType, connection: Connection)
      ensures this.dbType == dbType && this.connection == connection
    {
      this.dbType := dbType;
      this.connection := connection;
    }
  }

  /**
   * The driver's connection, seen from outside: which statements are open
   * and which statement texts the backend has accepted, in order. Whether a
   * call fails is an input; what the backend does with the text is not
   * modelled.
   */
  class Connection {
    ghost var openStatements: set<Statement>
    var executed: seq<string>

    constructor ()
      ensures openStatements == {} && executed == []
    {
      openStatements := {};
      executed := [];
    }

    /** Creates a statement, or yields none when the driver fails. */
    method CreateStatement(fails: bool) returns (st: Statement?)
      modifies this
      ensures fails ==> st == null && openStatements == old(openStatements)
      ensures !fails ==> st != null && fresh(st) && st.connection == this
                         && openStatements == old(openStatements) + {st}
      ensures executed == old(executed)
    {
      if fails {
        st := null;
      } else {
        st := new Statement(this);
        openStatements := openStatements + {st};
      }
    }
  }

  /** A statement created on a connection. */
  class Statement {
    const connection: Connection

    constructor (connection: Connection)
      ensures this.connection == connection
    {
      this.connection := connection;
    }

    /** Sends `sql`; the backend records it unless the driver fails. */
    method ExecuteUpdate(sql: string, fails: bool) returns (ok: bool)
      requires this in connection.openStatements
      modifies connection
      ensures ok == !fails
      ensures connection.executed == old(connection.executed) + (if ok then [sql] else [])
      ensures connection.openStatements == old(connection.openStatements)
    {
      ok := !fails;
      if ok {
        connection.executed := connection.executed + [sql];
      }
    }

    /**
     * Releases the statement. The driver may report a failure, which is
     * returned as `false`; the statement is released either way.
     */
    method Close(fails: bool) returns (ok: bool)
      modifies connection
      ensures ok == !fails
      ensures connection.openStatements == old(connection.openStatements) - {this}
      ensures connection.executed == old(connection.executed)
    {
      ok := !fails;
      connection.openStatements := connection.openStatements - {this};
    }
  }

  /** Which of the driver's calls fail during one `Table.Execute`. */
  datatype DriverFaults = DriverFaults(createFails: bool, updateFails: bool, closeFails: bool)

  /** A column: its definition and the table it was added to, if any. */
  class Column {
    const def: ColumnDef
    var table: Table?

    constructor (def: ColumnDef)
      ensures this.def == def && table == null
    {
      this.def := def;
      table := null;
    }
  }

  /** The definitions of `cs`, in order. */
  function Defs(cs: seq<Column>): seq<ColumnDef> {
    seq(|cs|, i requires 0 <= i < |cs| => cs[i].def)
  }

  /** Appends the clause of one column to `buffer`, piece by piece, as `execute` does. */
  method AppendClause(buffer: string, column: ColumnDef, db: DatabaseType) returns (r: string)
    ensures r == buffer + Clause(column, db)
  {
    r := buffer;
    Assoc4(r, column.name, " ", column.sqlType, " ");
    r := r + column.name;
    r := r + " ";
    r := r + column.sqlType;
    r := r + " ";
    ghost var head := column.name + " " + column.sqlType + " ";
    if column.primary {
      r := r + PrimaryKeyword;
    }
    assert r == buffer + head + PrimaryText(column.primary);
    if column.autoIncrement && db == MySQL {
      r := r + AutoIncrementKeyword;
    }
    ghost var withAuto := r;
    assert withAuto == buffer + head + PrimaryText(column.primary)
                       + AutoIncrementText(column.autoIncrement && db == MySQL);
    if column.defaultValue != "" {
      Assoc3(r, DefaultKeyword, column.defaultValue, " ");
      r := r + DefaultKeyword;
      r := r + column.defaultValue;
      r := r + " ";
    }
    assert r == withAuto + DefaultText(column.defaultValue);
    AssocNested(buffer, head, PrimaryText(column.primary),
                  AutoIncrementText(column.autoIncrement && db == MySQL), DefaultText(column.defaultValue));
  }

  /** Closes the column list and appends the engine clause and the final `;`. */
  method AppendTrailer(buffer: string, memory: bool, db: DatabaseType) returns (r: string)
    ensures r == buffer + Trailer(memory, db)
  {
    r := buffer + " ) ";
    if memory && db == MySQL {
      r := r + MemoryEngine;
    }
    assert r == buffer + " ) " + EngineClause(memory, db);
    Assoc3(buffer, " ) ", EngineClause(memory, db), ";");
    r := r + ";";
  }

  class Table {
    var columns: seq<Column>
    const database: Database
    var memory: bool
    const name: string

    constructor (database: Database, name: string)
      ensures this.database == database && this.name == name
      ensures columns == [] && !memory && Owns()
    {
      this.database := database;
      this.name := name;
      columns := [];
      memory := false;
    }

    /** Every column of this table points back to it. */
    ghost predicate Owns()
      reads this, set c | c in columns
    {
      forall c :: c in columns ==> c.table == this
    }

    /** Appends `column` and makes this table its owner. */
    method AddColumn(column: Column)
      modifies this, column
      ensures columns == old(columns) + [column]
      ensures column.table == this
      ensures memory == old(memory)
      ensures old(Owns()) ==> Owns()
    {
      column.table := this;
      columns := columns + [column];
    }

    function IsInMemory(): bool
      reads this
    {
      memory
    }

    method SetMemory(memory: bool)
      modifies this
      ensures IsInMemory() == memory
      ensures columns == old(columns)
    {
      this.memory := memory;
    }

    /**
     * Builds the `CREATE TABLE IF NOT EXISTS` text as `execute` does, one
     * piece at a time, reading the prefix given now (a missing one counts as
     * empty).
     */
    method CreateStatementText(configuredPrefix: Option<string>) returns (sql: string)
      ensures sql == Render(EffectivePrefix(configuredPrefix), name, Defs(columns), memory, database.dbType)
    {
      var buffer := CreateKeyword;
      var prefix := configuredPrefix.GetOr("");
      buffer := buffer + prefix + name;
      buffer := buffer + " ( ";
      ghost var defs := Defs(columns);
      ghost var db := database.dbType;
      var index := 0;
      while index < |columns|
        invariant 0 <= index <= |columns|
        invariant buffer == Header(prefix, name) + Join(Clauses(defs[..index], db))
                            + (if 0 < index < |columns| then Separator else "")
      {
        var column := columns[index].def;
        ColumnListStep(Header(prefix, name), defs, index, db);
        buffer := AppendClause(buffer, column, database.dbType);
        if index != |columns| - 1 {
          CommaSpace(buffer);
          buffer := buffer + ",";
          buffer := buffer + " ";
        }
        index := index + 1;
      }
      assert defs[..index] == defs;
      ghost var body := Header(prefix, name) + Join(Clauses(defs, db));
      assert buffer == body;
      sql := AppendTrailer(buffer, memory, database.dbType);
    }

    /**
     * Renders the statement, runs it on a fresh statement that is closed on
     * every path, swallows the driver's failures, and counts one query as in
     * memory or on disk.
     */
    method Execute(configuredPrefix: Option<string>, perf: Util.Performance, faults: DriverFaults)
      modifies database.connection, perf
      ensures unchanged(this)
      ensures database.connection.openStatements == old(database.connection.openStatements)
      ensures database.connection.executed == old(database.connection.executed)
        + (if faults.createFails || faults.updateFails then []
           else [Render(EffectivePrefix(configuredPrefix), name, Defs(columns), memory, database.dbType)])
      ensures perf.memDBQueries == old(perf.memDBQueries) + (if memory then 1 else 0)
      ensures perf.physDBQueries == old(perf.physDBQueries) + (if memory then 0 else 1)
    {
      var sql := CreateStatementText(configuredPrefix);
      var statement: Statement? := null;
      statement := database.connection.CreateStatement(faults.createFails);
      if statement != null {
        // a failed update is caught and only reported on the console
        var updated := statement.ExecuteUpdate(sql, faults.updateFails);
      }
      if statement != null {
        // a failed close is caught and ignored
        var closed := statement.Close(faults.closeFails);
      }
      if memory {
        perf.AddMemDBQuery();
      } else {
        perf.AddPhysDBQuery();
      }
    }
  }
}
