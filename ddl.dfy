/**
 * The text of the `CREATE TABLE IF NOT EXISTS` statement that `Table.execute`
 * assembles, as pure functions of its inputs, and what that text looks like.
 */
module Ddl {
  import opened Wrappers
  import opened Strings

  /** The backend dialect; only MySQL changes the rendered text. */
  datatype DatabaseType = MySQL | SQLite

  /** The parts of a column that the renderer reads. */
  datatype ColumnDef = ColumnDef(
    name: string,
    sqlType: string,
    primary: bool,
    autoIncrement: bool,
    defaultValue: string)

  const CreateKeyword: string := "CREATE TABLE IF NOT EXISTS "
  const PrimaryKeyword: string := "PRIMARY KEY "
  const AutoIncrementKeyword: string := "AUTO_INCREMENT "
  const DefaultKeyword: string := "DEFAULT "
  const Separator: string := ", "
  const MemoryEngine: string := "ENGINE = MEMORY"

  /** The configured prefix, with a missing (null) one read as the empty string. */
  function EffectivePrefix(configured: Option<string>): string {
    configured.GetOr("")
  }

  function PrimaryText(primary: bool): string {
    if primary then PrimaryKeyword else ""
  }

  function AutoIncrementText(autoIncrement: bool): string {
    if autoIncrement then AutoIncrementKeyword else ""
  }

  function DefaultText(value: string): string {
    if value != "" then DefaultKeyword + value + " " else ""
  }

  /**
   * The optional words of a column clause, each followed by a space;
   * AUTO_INCREMENT is dropped unless the backend is MySQL.
   */
  function OptionsText(c: ColumnDef, db: DatabaseType): string {
    PrimaryText(c.primary) + AutoIncrementText(c.autoIncrement && db == MySQL) + DefaultText(c.defaultValue)
  }

  /** The clause for one column: its name, its type, then its options. */
  function Clause(c: ColumnDef, db: DatabaseType): string {
    c.name + " " + c.sqlType + " " + OptionsText(c, db)
  }

  /** The clause of every column, in column order. */
  function Clauses(cols: seq<ColumnDef>, db: DatabaseType): seq<string> {
    seq(|cols|, i requires 0 <= i < |cols| => Clause(cols[i], db))
  }

  /** Clauses are rendered column by column, so a column added last adds its clause last. */
  lemma ClausesSnoc(cols: seq<ColumnDef>, c: ColumnDef, db: DatabaseType)
    ensures Clauses(cols + [c], db) == Clauses(cols, db) + [Clause(c, db)]
  {
    var l, r := Clauses(cols + [c], db), Clauses(cols, db) + [Clause(c, db)];
    forall i | 0 <= i < |l|
      ensures l[i] == r[i]
    {
      if i < |cols| {
        assert (cols + [c])[i] == cols[i];
      }
    }
  }

  /** `parts` in order, neighbours separated by `", "`, nothing after the last. */
  function Join(parts: seq<string>): string
    decreases |parts|
  {
    if |parts| == 0 then ""
    else if |parts| == 1 then parts[0]
    else parts[0] + Separator + Join(parts[1..])
  }

  /** The storage-engine clause, present only for an in-memory table on MySQL. */
  function EngineClause(memory: bool, db: DatabaseType): string {
    if memory && db == MySQL then MemoryEngine else ""
  }

  /** The text before the column list: keyword, prefixed table name, open parenthesis. */
  function Header(prefix: string, name: string): string {
    CreateKeyword + prefix + name + " ( "
  }

  /** The text after the column list: close parenthesis, engine clause, semicolon. */
  function Trailer(memory: bool, db: DatabaseType): string {
    " ) " + EngineClause(memory, db) + ";"
  }

  /** The whole statement for a table: header, joined column clauses, trailer. */
  function Render(prefix: string, name: string, cols: seq<ColumnDef>, memory: bool, db: DatabaseType): string {
    Header(prefix, name) + Join(Clauses(cols, db)) + Trailer(memory, db)
  }

  /** Where `parts[i]` starts inside `Join(parts)`. */
  function PartOffset(parts: seq<string>, i: nat): nat
    requires i <= |parts|
    decreases i
  {
    if i == 0 then 0 else |parts[0]| + |Separator| + PartOffset(parts[1..], i - 1)
  }

  /** Proof step: the two appends after a clause add one separator. */
  lemma CommaSpace(b: string)
    ensures b + "," + " " == b + Separator
  {
  }

  /** The options a column clause announces, as read back from its text. */
  datatype ClauseOptions = ClauseOptions(primaryKey: bool, autoIncrement: bool, defaultValue: string)

  /** Strips a leading `keyword`, saying whether it was there. */
  function StripKeyword(s: string, keyword: string): (bool, string) {
    if StartsWith(s, keyword) then (true, s[|keyword|..]) else (false, s)
  }

  /**
   * Reads a DEFAULT part back: the empty text to the empty value, exactly
   * `DEFAULT <value> ` with a non-empty value to that value, and nothing else.
   */
  function ParseDefault(s: string): Option<string> {
    if s == "" then Some("")
    else if |DefaultKeyword| + 1 < |s| && StartsWith(s, DefaultKeyword) && s[|s| - 1] == ' '
    then Some(s[|DefaultKeyword|..|s| - 1])
    else None
  }

  /**
   * Reads the optional words back: `PRIMARY KEY `, then `AUTO_INCREMENT `,
   * then `DEFAULT <value> `, each optional and in this order, with nothing
   * after them.
   */
  function ParseOptions(s: string): Option<ClauseOptions> {
    var (pk, s1) := StripKeyword(s, PrimaryKeyword);
    var (ai, s2) := StripKeyword(s1, AutoIncrementKeyword);
    match ParseDefault(s2)
    case None => None
    case Some(v) => Some(ClauseOptions(pk, ai, v))
  }

  /**
   * The DEFAULT part is absent exactly when the value is empty, otherwise it
   * starts with `D` and ends with a space, and it reads back to the value.
   */
  lemma DefaultTextDecodes(v: string)
    ensures DefaultText(v) == "" <==> v == ""
    ensures ParseDefault(DefaultText(v)) == Some(v)
    ensures DefaultText(v) == "" || (DefaultText(v)[0] == 'D' && DefaultText(v)[|DefaultText(v)| - 1] == ' ')
  {
    if v != "" {
      var d := DefaultText(v);
      assert d == DefaultKeyword + v + " ";
      assert d[..|DefaultKeyword|] == DefaultKeyword;
      assert d[|DefaultKeyword|..|d| - 1] == v;
    }
  }

  /** Only the text `DefaultText` renders reads back as a DEFAULT part. */
  lemma DefaultTextEncodes(s: string, v: string)
    requires ParseDefault(s) == Some(v)
    ensures DefaultText(v) == s
  {
    if s != "" {
      var n := |DefaultKeyword|;
      assert s[..n] == DefaultKeyword;
      assert s[n..|s| - 1] == v;
      assert s == s[..n] + s[n..|s| - 1] + [s[|s| - 1]];
    }
  }

  /** A keyword is stripped exactly when it is there, from text that does not begin with `other`'s first letter. */
  lemma StripKeywordAt(keyword: string, present: bool, rest: string, other: char)
    requires keyword != [] && keyword[0] != other
    requires rest == "" || rest[0] == other
    ensures StripKeyword((if present then keyword else "") + rest, keyword) == (present, rest)
  {
    var s := (if present then keyword else "") + rest;
    if present {
      assert s[..|keyword|] == keyword;
      assert s[|keyword|..] == rest;
    } else {
      assert s == rest;
      assert !StartsWith(s, keyword) by {
        if rest != "" && |keyword| <= |rest| { assert s[..|keyword|][0] == other; }
      }
    }
  }

  /**
   * A column clause starts with the name and type, each followed by one space,
   * ends with a space, and its optional words can be read back: PRIMARY KEY
   * exactly when the column is primary, AUTO_INCREMENT exactly when it asks
   * for it and the backend is MySQL, and the default value verbatim (the empty
   * value meaning no DEFAULT part), with nothing after the optional words.
   */
  lemma ClauseDecodes(c: ColumnDef, db: DatabaseType)
    ensures var s := Clause(c, db);
      var k := |c.name| + |c.sqlType| + 2;
      k <= |s| && s[..k] == c.name + " " + c.sqlType + " "
      && s[|s| - 1] == ' '
      && ParseOptions(s[k..]) == Some(ClauseOptions(c.primary, c.autoIncrement && db == MySQL, c.defaultValue))
  {
    var head := c.name + " " + c.sqlType + " ";
    var ai := c.autoIncrement && db == MySQL;
    var p := PrimaryText(c.primary);
    var a := AutoIncrementText(ai);
    var d := DefaultText(c.defaultValue);
    var opts := OptionsText(c, db);
    SplitAt(head, opts);
    Assoc(p, a, d);
    DefaultTextDecodes(c.defaultValue);
    StripKeywordAt(AutoIncrementKeyword, ai, d, 'D');
    var ad := a + d;
    assert ad == "" || ad[0] == 'A' || ad[0] == 'D' by {
      if a != "" { assert ad[0] == a[0]; }
    }
    if ad == "" || ad[0] == 'A' {
      StripKeywordAt(PrimaryKeyword, c.primary, ad, 'A');
    } else {
      StripKeywordAt(PrimaryKeyword, c.primary, ad, 'D');
    }
    ClauseEndsWithSpace(c, db);
  }

  /** Every column clause ends with a space. */
  lemma ClauseEndsWithSpace(c: ColumnDef, db: DatabaseType)
    ensures var s := Clause(c, db); |s| > 0 && s[|s| - 1] == ' '
  {
    var p := PrimaryText(c.primary);
    var a := AutoIncrementText(c.autoIncrement && db == MySQL);
    var d := DefaultText(c.defaultValue);
    var opts := OptionsText(c, db);
    assert opts == "" || opts[|opts| - 1] == ' ' by {
      if d != "" {
        assert opts[|opts| - 1] == d[|d| - 1];
      } else if a != "" {
        assert opts[|opts| - 1] == a[|a| - 1];
      } else if p != "" {
        assert opts[|opts| - 1] == p[|p| - 1];
      }
    }
  }

  /**
   * Two non-empty runs of parts join as the first run, a separator and the
   * second run: parts keep their order and only neighbours are separated.
   */
  lemma {:induction false} JoinAppend(a: seq<string>, b: seq<string>)
    requires a != [] && b != []
    ensures Join(a + b) == Join(a) + Separator + Join(b)
    decreases |a|
  {
    assert (a + b)[0] == a[0];
    assert (a + b)[1..] == a[1..] + b;
    if |a| > 1 {
      JoinAppend(a[1..], b);
    }
  }

  /**
   * Adding a column at the end extends the column list by a separator (when
   * there were columns before) and the new column's clause.
   */
  lemma ColumnListSnoc(cols: seq<ColumnDef>, c: ColumnDef, db: DatabaseType)
    ensures Join(Clauses(cols + [c], db))
      == Join(Clauses(cols, db)) + (if cols == [] then "" else Separator) + Clause(c, db)
  {
    ClausesSnoc(cols, c, db);
    if cols != [] {
      JoinAppend(Clauses(cols, db), [Clause(c, db)]);
    }
  }

  /**
   * One column more: the text built for the first `i` columns, the separator
   * the loop left behind, and the next clause make the text of `i + 1` columns.
   */
  lemma ColumnListStep(h: string, cols: seq<ColumnDef>, i: nat, db: DatabaseType)
    requires i < |cols|
    ensures h + Join(Clauses(cols[..i], db)) + (if 0 < i then Separator else "") + Clause(cols[i], db)
      == h + Join(Clauses(cols[..i + 1], db))
  {
    assert cols[..i + 1] == cols[..i] + [cols[i]];
    ColumnListSnoc(cols[..i], cols[i], db);
    Assoc3(h, Join(Clauses(cols[..i], db)), if 0 < i then Separator else "", Clause(cols[i], db));
  }

  /**
   * `parts[i]` sits at `PartOffset(parts, i)` in the joined text; it is
   * followed by a separator when another part follows, and ends the text when
   * it is the last one.
   */
  lemma {:induction false} PartAt(parts: seq<string>, i: nat)
    requires i < |parts|
    ensures var l := Join(parts);
      var o := PartOffset(parts, i);
      var e := o + |parts[i]|;
      e <= |l| && l[o..e] == parts[i]
      && (i + 1 < |parts| ==> e + 2 <= |l| && l[e..e + 2] == Separator)
      && (i + 1 == |parts| ==> e == |l|)
    decreases i
  {
    var l := Join(parts);
    var p0 := parts[0];
    if |parts| == 1 {
      assert l == p0;
    } else {
      var rest := Join(parts[1..]);
      var h := p0 + Separator;
      assert l == h + rest;
      if i == 0 {
        Front(p0, Separator, rest);
      } else {
        PartAt(parts[1..], i - 1);
        var o' := PartOffset(parts[1..], i - 1);
        var e' := o' + |parts[i]|;
        assert parts[1..][i - 1] == parts[i];
        Shift(h, rest, o', e');
        if i + 1 < |parts| {
          Shift(h, rest, e', e' + 2);
        }
      }
    }
  }

  /**
   * The statement starts with `CREATE TABLE IF NOT EXISTS`, the prefix, the
   * table name and ` ( `, whatever the columns.
   */
  lemma RenderHeader(prefix: string, name: string, cols: seq<ColumnDef>, memory: bool, db: DatabaseType)
    ensures StartsWith(Render(prefix, name, cols, memory, db), CreateKeyword + prefix + name + " ( ")
  {
    var h := Header(prefix, name);
    var l := Join(Clauses(cols, db));
    var t := Trailer(memory, db);
    SplitAt(h, l + t);
    Assoc(h, l, t);
  }

  /** A table without columns renders an empty body: two spaces between the parentheses. */
  lemma RenderEmptyTable(prefix: string, name: string, memory: bool, db: DatabaseType)
    ensures Render(prefix, name, [], memory, db)
      == CreateKeyword + prefix + name + " (  ) " + EngineClause(memory, db) + ";"
  {
    assert Join(Clauses([], db)) == "";
    var x := CreateKeyword + prefix + name;
    var e := EngineClause(memory, db);
    assert " ( " + " ) " == " (  ) ";
    calc {
      Render(prefix, name, [], memory, db);
      x + " ( " + "" + (" ) " + e + ";");
      x + (" ( " + " ) ") + e + ";";
    }
  }

  /**
   * The statement ends with ` ) ENGINE = MEMORY;` exactly when the table is in
   * memory and the backend is MySQL, and with ` ) ;` otherwise: one closing
   * parenthesis and one semicolon, whatever the columns.
   */
  lemma RenderEnding(prefix: string, name: string, cols: seq<ColumnDef>, memory: bool, db: DatabaseType)
    ensures var r := Render(prefix, name, cols, memory, db);
      (EndsWith(r, " ) " + MemoryEngine + ";") <==> memory && db == MySQL)
      && (EndsWith(r, " ) ;") <==> !(memory && db == MySQL))
  {
    var r := Render(prefix, name, cols, memory, db);
    var body := Header(prefix, name) + Join(Clauses(cols, db));
    var tail := Trailer(memory, db);
    SplitAt(body, tail);
    assert r[|r| - |tail|..] == tail;
    var withEngine := " ) " + MemoryEngine + ";";
    var without := " ) ;";
    assert withEngine[|withEngine| - 2] == 'Y';
    assert without[|without| - 2] == ' ';
    if memory && db == MySQL {
      assert tail == withEngine;
      assert r[|r| - 2] == 'Y';
    } else {
      assert tail == without;
      assert r[|r| - 2] == ' ';
    }
  }

  /** The trailer always opens with ` ) `. */
  lemma TrailerOpens(memory: bool, db: DatabaseType)
    ensures 3 <= |Trailer(memory, db)| && Trailer(memory, db)[..3] == " ) "
  {
  }

  /**
   * Part `i` of `parts`, joined between any header `h` and a trailer opening
   * with ` ) `, sits after `h` at its offset, followed by `", "` or, for the
   * last part, by ` ) `.
   */
  lemma JoinedPartAt(r: string, h: string, parts: seq<string>, t: string, i: nat)
    requires r == h + Join(parts) + t
    requires i < |parts|
    requires 3 <= |t| && t[..3] == " ) "
    ensures PlacedAt(r, |h| + PartOffset(parts, i), parts[i], if i + 1 == |parts| then " ) " else Separator)
  {
    PartAt(parts, i);
    if i + 1 == |parts| {
      EmbedAtEnd(r, h, Join(parts), t, PartOffset(parts, i), parts[i], " ) ");
    } else {
      EmbedInside(r, h, Join(parts), t, PartOffset(parts, i), parts[i], Separator);
    }
  }

  /**
   * Inside the statement, the clause of column `i` comes right after the
   * header at its offset among the clauses, and is followed by `", "` when
   * another column follows and by ` ) ` when it is the last.
   */
  lemma RenderClauseAt(r: string, prefix: string, name: string, cols: seq<ColumnDef>, memory: bool, db: DatabaseType, i: nat)
    requires r == Render(prefix, name, cols, memory, db)
    requires i < |cols|
    ensures PlacedAt(r, |Header(prefix, name)| + PartOffset(Clauses(cols, db), i),
                     Clauses(cols, db)[i], if i + 1 == |Clauses(cols, db)| then " ) " else Separator)
  {
    TrailerOpens(memory, db);
    JoinedPartAt(r, Header(prefix, name), Clauses(cols, db), Trailer(memory, db), i);
  }

  /**
   * The prefix is part of the text: two renderings of the same table that
   * differ only in the prefix are different statements.
   */
  lemma RenderPrefixInjective(p1: string, p2: string, name: string, cols: seq<ColumnDef>, memory: bool, db: DatabaseType)
    requires Render(p1, name, cols, memory, db) == Render(p2, name, cols, memory, db)
    ensures p1 == p2
  {
    var l := Join(Clauses(cols, db));
    var t := Trailer(memory, db);
    var rest := l + t;
    var h1 := Header(p1, name);
    var h2 := Header(p2, name);
    Assoc(h1, l, t);
    Assoc(h2, l, t);
    SplitAt(h1, rest);
    SplitAt(h2, rest);
    assert h1 == h2;
    var tail := name + " ( ";
    assert h1 == CreateKeyword + p1 + tail;
    assert h2 == CreateKeyword + p2 + tail;
    MiddleOf(CreateKeyword, p1, tail);
    MiddleOf(CreateKeyword, p2, tail);
  }

  /** Every rendered column clause ends with a space. */
  lemma ClausesEndWithSpace(cols: seq<ColumnDef>, db: DatabaseType, i: nat)
    requires i < |cols|
    ensures var p := Clauses(cols, db)[i]; 0 < |p| && p[|p| - 1] == ' '
  {
    ClauseEndsWithSpace(cols[i], db);
  }

  /** The last rendered column clause ends with a space. */
  lemma LastClauseEndsWithSpace(cols: seq<ColumnDef>, db: DatabaseType)
    requires 0 < |cols|
    ensures var parts := Clauses(cols, db); var p := parts[|parts| - 1]; 0 < |p| && p[|p| - 1] == ' '
  {
    var parts := Clauses(cols, db);
    assert |parts| == |cols|;
    ClausesEndWithSpace(cols, db, |parts| - 1);
  }

  /**
   * When the last of the joined parts ends with a space and a ` ) ` follows
   * the list, that space sits right before the ` ) `.
   */
  lemma JoinedLastSpace(r: string, h: string, parts: seq<string>, t: string)
    requires r == h + Join(parts) + t
    requires 0 < |parts|
    requires var p := parts[|parts| - 1]; 0 < |p| && p[|p| - 1] == ' '
    requires 3 <= |t| && t[..3] == " ) "
    ensures PlacedAt(r, |h| + |Join(parts)| - 1, " ", " ) ")
  {
    var last := |parts| - 1;
    JoinedPartAt(r, h, parts, t, last);
    PartAt(parts, last);
    LastCharPlaced(r, |h| + PartOffset(parts, last), parts[last], " ) ");
  }

  /**
   * With at least one column, the last clause's own trailing space comes
   * right before the ` ) ` that closes the list: the parenthesis is preceded
   * by two spaces, not one.
   */
  lemma RenderClosingSpaces(r: string, prefix: string, name: string, cols: seq<ColumnDef>, memory: bool, db: DatabaseType)
    requires r == Render(prefix, name, cols, memory, db)
    requires 0 < |cols|
    ensures PlacedAt(r, |Header(prefix, name)| + |Join(Clauses(cols, db))| - 1, " ", " ) ")
  {
    LastClauseEndsWithSpace(cols, db);
    TrailerOpens(memory, db);
    JoinedLastSpace(r, Header(prefix, name), Clauses(cols, db), Trailer(memory, db));
  }
}
