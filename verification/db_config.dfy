/**
 * The schema text handed to the SQL-writing model, built from the rows of
 * the catalog query (`get_schema_info`), and the ODBC connection string
 * assembled by `create_db_engine`.
 */
module DbConfig {
  import opened Base
  import opened PyText

  /** One row of the INFORMATION_SCHEMA query, in its column order:
      TABLE_SCHEMA, TABLE_NAME, COLUMN_NAME, DATA_TYPE, IS_NULLABLE,
      COLUMN_DEFAULT. */
  datatype Row = Row(
    schema: string,
    table: string,
    column: string,
    dataType: string,
    nullable: string,
    default: Option<string>)

  /** What the formatter keeps of a row: the default value is dropped. */
  datatype Column = Column(name: string, dataType: string, nullable: string)

  /** A table in first-seen order with its columns in row order. */
  datatype TableSection = TableSection(name: string, columns: seq<Column>)

  /** The outcome of running the catalog query. */
  datatype Catalog = Rows(rows: seq<Row>) | QueryFailed(message: string)

  function FullName(r: Row): string {
    r.schema + "." + r.table
  }

  function ColumnOf(r: Row): Column {
    Column(r.column, r.dataType, r.nullable)
  }

  /** The table filter: `None` and the empty list both keep every table;
      a non-empty list keeps exactly the tables whose full name it lists. */
  predicate Kept(limit: Option<seq<string>>, name: string) {
    match limit
    case None => true
    case Some(names) => |names| == 0 || name in names
  }

  function Names(g: seq<TableSection>): (r: seq<string>)
    ensures |r| == |g|
    ensures forall i :: 0 <= i < |g| ==> r[i] == g[i].name
  {
    seq(|g|, i requires 0 <= i < |g| => g[i].name)
  }

  /** Where `name` sits among the sections built so far. */
  function IndexOf(g: seq<TableSection>, name: string): (r: Option<nat>)
    ensures r.Some? ==> r.value < |g| && g[r.value].name == name
    ensures r.None? <==> name !in Names(g)
  {
    if |g| == 0 then None
    else if g[|g| - 1].name == name then Some(|g| - 1)
    else
      assert Names(g) == Names(g[..|g| - 1]) + [g[|g| - 1].name];
      IndexOf(g[..|g| - 1], name)
  }

  /** One step of the grouping loop: append the column to its table,
      opening a new table at the end the first time the name is seen. */
  function AddColumn(g: seq<TableSection>, name: string, col: Column): seq<TableSection> {
    match IndexOf(g, name)
    case Some(i) => g[i := TableSection(name, g[i].columns + [col])]
    case None => g + [TableSection(name, [col])]
  }

  /** The grouping loop over the catalog rows, as the dictionary it fills. */
  function Group(rows: seq<Row>, limit: Option<seq<string>>): seq<TableSection>
    decreases |rows|
  {
    if |rows| == 0 then []
    else
      var g := Group(rows[..|rows| - 1], limit);
      var r := rows[|rows| - 1];
      if Kept(limit, FullName(r)) then AddColumn(g, FullName(r), ColumnOf(r)) else g
  }

  // Reference definitions, independent of the loop's bookkeeping.

  /** Full names of the rows the filter keeps, one per row, in row order. */
  function KeptNames(rows: seq<Row>, limit: Option<seq<string>>): seq<string>
    decreases |rows|
  {
    if |rows| == 0 then []
    else
      var ns := KeptNames(rows[..|rows| - 1], limit);
      var n := FullName(rows[|rows| - 1]);
      if Kept(limit, n) then ns + [n] else ns
  }

  /** Every row naming table `name`, as a column, in row order. */
  function ColumnsOf(rows: seq<Row>, name: string): seq<Column>
    decreases |rows|
  {
    if |rows| == 0 then []
    else
      var cs := ColumnsOf(rows[..|rows| - 1], name);
      var r := rows[|rows| - 1];
      if FullName(r) == name then cs + [ColumnOf(r)] else cs
  }

  /** Kept rows only ever name tables the filter keeps. */
  lemma {:induction false} KeptNamesAreKept(rows: seq<Row>, limit: Option<seq<string>>)
    ensures forall n :: n in KeptNames(rows, limit) ==> Kept(limit, n)
    ensures forall n :: Kept(limit, n) && n !in KeptNames(rows, limit) ==> ColumnsOf(rows, n) == []
    decreases |rows|
  {
    if |rows| > 0 {
      KeptNamesAreKept(rows[..|rows| - 1], limit);
    }
  }

  /** Adding a column to a table already present keeps the table list and
      changes only that table. */
  lemma AddColumnFound(g: seq<TableSection>, n: string, col: Column, i: nat)
    requires IndexOf(g, n) == Some(i)
    requires Distinct(Names(g))
    ensures var g' := AddColumn(g, n, col);
            && Names(g') == Names(g)
            && g'[i].columns == g[i].columns + [col]
            && (forall j :: 0 <= j < |g| && j != i ==> g'[j] == g[j] && g[j].name != n)
  {
    var g' := AddColumn(g, n, col);
    assert Names(g') == Names(g) by {
      assert forall j :: 0 <= j < |g| ==> Names(g')[j] == Names(g)[j];
    }
    forall j | 0 <= j < |g| && j != i
      ensures g[j].name != n
    {
      assert Names(g)[j] != Names(g)[i];
    }
  }

  /** Adding a column of an unseen table appends a one-column table. */
  lemma AddColumnNew(g: seq<TableSection>, n: string, col: Column)
    requires IndexOf(g, n).None?
    ensures var g' := AddColumn(g, n, col);
            && Names(g') == Names(g) + [n]
            && g'[|g|] == TableSection(n, [col])
            && (forall j :: 0 <= j < |g| ==> g'[j] == g[j])
  {
    var g' := AddColumn(g, n, col);
    assert forall j :: 0 <= j < |g'| ==> Names(g')[j] == (Names(g) + [n])[j];
  }

  /** One more row changes only the columns of the table it names. */
  lemma ColumnsOfStep(rows: seq<Row>, m: string)
    requires |rows| > 0
    ensures var r := rows[|rows| - 1];
            ColumnsOf(rows, m) == if FullName(r) == m then ColumnsOf(rows[..|rows| - 1], m) + [ColumnOf(r)]
                                  else ColumnsOf(rows[..|rows| - 1], m)
  {
  }

  /** The grouping of `rows` is the reference table list: one section per
      distinct kept name in first-seen order, holding all its columns. */
  predicate GroupMatches(rows: seq<Row>, limit: Option<seq<string>>) {
    var g := Group(rows, limit);
    && Names(g) == Dedup(KeptNames(rows, limit))
    && forall i :: 0 <= i < |g| ==> g[i].columns == ColumnsOf(rows, g[i].name)
  }

  /** The grouping loop builds exactly the reference table list. */
  lemma {:induction false} GroupSpec(rows: seq<Row>, limit: Option<seq<string>>)
    ensures Names(Group(rows, limit)) == Dedup(KeptNames(rows, limit))
    ensures forall i :: 0 <= i < |Group(rows, limit)| ==>
              Group(rows, limit)[i].columns == ColumnsOf(rows, Group(rows, limit)[i].name)
    decreases |rows|
  {
    if |rows| > 0 {
      GroupSpec(rows[..|rows| - 1], limit);
      if Kept(limit, FullName(rows[|rows| - 1])) {
        GroupKeptStep(rows, limit);
      } else {
        GroupSkippedStep(rows, limit);
      }
    }
  }

  /** A row the filter drops leaves the grouping as it was. */
  lemma GroupSkippedStep(rows: seq<Row>, limit: Option<seq<string>>)
    requires |rows| > 0 && !Kept(limit, FullName(rows[|rows| - 1]))
    requires GroupMatches(rows[..|rows| - 1], limit)
    ensures GroupMatches(rows, limit)
  {
    var init := rows[..|rows| - 1];
    var n := FullName(rows[|rows| - 1]);
    var g := Group(rows, limit);
    assert g == Group(init, limit);
    KeptNamesAreKept(init, limit);
    DedupSpec(KeptNames(init, limit));
    forall i | 0 <= i < |g| ensures g[i].columns == ColumnsOf(rows, g[i].name) {
      assert g[i].name == Names(g)[i];
      assert g[i].name != n;
      ColumnsOfStep(rows, g[i].name);
    }
  }

  /** A kept row adds its column to its table, opening the table if new. */
  lemma GroupKeptStep(rows: seq<Row>, limit: Option<seq<string>>)
    requires |rows| > 0 && Kept(limit, FullName(rows[|rows| - 1]))
    requires GroupMatches(rows[..|rows| - 1], limit)
    ensures GroupMatches(rows, limit)
  {
    var init := rows[..|rows| - 1];
    var n := FullName(rows[|rows| - 1]);
    assert KeptNames(rows, limit) == KeptNames(init, limit) + [n];
    DedupSnoc(KeptNames(init, limit), n);
    DedupSpec(KeptNames(init, limit));
    match IndexOf(Group(init, limit), n)
    case Some(i) =>
      GroupKeptFound(rows, limit, i);
    case None =>
      KeptNamesAreKept(init, limit);
      GroupKeptNew(rows, limit);
  }

  /** A kept row of a table already open extends that table only. */
  lemma GroupKeptFound(rows: seq<Row>, limit: Option<seq<string>>, i: nat)
    requires |rows| > 0
    requires GroupMatches(rows[..|rows| - 1], limit)
    requires Distinct(Names(Group(rows[..|rows| - 1], limit)))
    requires Group(rows, limit) == AddColumn(Group(rows[..|rows| - 1], limit), FullName(rows[|rows| - 1]), ColumnOf(rows[|rows| - 1]))
    requires Dedup(KeptNames(rows, limit)) == Dedup(KeptNames(rows[..|rows| - 1], limit))
    requires IndexOf(Group(rows[..|rows| - 1], limit), FullName(rows[|rows| - 1])) == Some(i)
    ensures GroupMatches(rows, limit)
  {
    var init := rows[..|rows| - 1];
    var r := rows[|rows| - 1];
    var n := FullName(r);
    var g0 := Group(init, limit);
    var g := Group(rows, limit);
    AddColumnFound(g0, n, ColumnOf(r), i);
    forall j | 0 <= j < |g| ensures g[j].columns == ColumnsOf(rows, g[j].name) {
      ColumnsOfStep(rows, g[j].name);
    }
  }

  /** A kept row of a new table opens one more table at the end. */
  lemma GroupKeptNew(rows: seq<Row>, limit: Option<seq<string>>)
    requires |rows| > 0 && Kept(limit, FullName(rows[|rows| - 1]))
    requires GroupMatches(rows[..|rows| - 1], limit)
    requires Group(rows, limit) == AddColumn(Group(rows[..|rows| - 1], limit), FullName(rows[|rows| - 1]), ColumnOf(rows[|rows| - 1]))
    requires IndexOf(Group(rows[..|rows| - 1], limit), FullName(rows[|rows| - 1])).None?
    requires Dedup(KeptNames(rows, limit)) == Dedup(KeptNames(rows[..|rows| - 1], limit)) + [FullName(rows[|rows| - 1])]
    requires FullName(rows[|rows| - 1]) !in KeptNames(rows[..|rows| - 1], limit)
    requires forall m :: Kept(limit, m) && m !in KeptNames(rows[..|rows| - 1], limit) ==> ColumnsOf(rows[..|rows| - 1], m) == []
    ensures GroupMatches(rows, limit)
  {
    var init := rows[..|rows| - 1];
    var r := rows[|rows| - 1];
    var n := FullName(r);
    var g0 := Group(init, limit);
    var g := Group(rows, limit);
    AddColumnNew(g0, n, ColumnOf(r));
    forall j | 0 <= j < |g| ensures g[j].columns == ColumnsOf(rows, g[j].name) {
      ColumnsOfStep(rows, g[j].name);
      if j < |g0| {
        assert Names(g0)[j] == g0[j].name;
      }
    }
  }

  /** The structured content of the schema text. */
  datatype SchemaDoc = SchemaDoc(sections: seq<TableSection>, hidden: Option<nat>)

  /** Python's `xs[:k]`: a negative `k` counts from the end. */
  function SliceHead<T>(xs: seq<T>, k: int): (r: seq<T>)
    ensures |r| <= |xs| && r == xs[..|r|]
    ensures k >= 0 ==> |r| == if k <= |xs| then k else |xs|
    ensures k < 0 ==> |r| == if |xs| + k >= 0 then |xs| + k else 0
  {
    if k >= 0 then (if k <= |xs| then xs[..k] else xs)
    else if |xs| + k >= 0 then xs[..|xs| + k]
    else []
  }

  function Min(a: int, b: int): int {
    if a <= b then a else b
  }

  /** What `get_schema_info` decides to print: the first `maxTables` tables
      of the grouping, and how many were cut off. */
  function Document(rows: seq<Row>, limit: Option<seq<string>>, maxTables: int): (d: SchemaDoc)
    ensures var names := Dedup(KeptNames(rows, limit));
            && |d.sections| <= |names|
            && (maxTables >= 0 ==> |d.sections| == Min(|names|, maxTables))
            && (forall i :: 0 <= i < |d.sections| ==>
                  && d.sections[i].name == names[i]
                  && Kept(limit, names[i])
                  && d.sections[i].columns == ColumnsOf(rows, names[i]))
            && (d.hidden.Some? <==> |names| > maxTables)
            && (d.hidden.Some? ==> d.hidden.value == |names| - maxTables)
  {
    var g := Group(rows, limit);
    GroupSpec(rows, limit);
    KeptNamesAreKept(rows, limit);
    DedupSpec(KeptNames(rows, limit));
    assert forall i :: 0 <= i < |g| ==> g[i].name == Names(g)[i];
    SchemaDoc(SliceHead(g, maxTables),
              if |g| > maxTables then Some(|g| - maxTables) else None)
  }

  const Header: string := "Database Schema:\n\n"

  function NullLabel(nullable: string): string {
    if nullable == "YES" then "NULL" else "NOT NULL"
  }

  /** One column line; IS_NULLABLE = 'YES' prints NULL, any other value
      prints NOT NULL. */
  function ColumnLine(c: Column): (r: string)
    ensures StartsWith(r, "  - " + c.name + " (" + c.dataType + ", ")
    ensures EndsWith(r, ", NULL)\n") <==> c.nullable == "YES"
    ensures EndsWith(r, ", NOT NULL)\n") <==> c.nullable != "YES"
  {
    var prefix := "  - " + c.name + " (" + c.dataType;
    var r := prefix + ", " + NullLabel(c.nullable) + ")\n";
    ColumnLineShape(prefix, c.nullable);
    r
  }

  lemma ColumnLineShape(prefix: string, nullable: string)
    ensures var r := prefix + ", " + NullLabel(nullable) + ")\n";
            && StartsWith(r, prefix + ", ")
            && (EndsWith(r, ", NULL)\n") <==> nullable == "YES")
            && (EndsWith(r, ", NOT NULL)\n") <==> nullable != "YES")
  {
    var r := prefix + ", " + NullLabel(nullable) + ")\n";
    assert r[..|prefix| + 2] == prefix + ", ";
    if nullable == "YES" {
      assert r[|r| - 8..] == ", NULL)\n";
      if |r| >= 12 {
        assert r[|r| - 12..][4] == r[|r| - 8] == ',';
      }
    } else {
      assert r[|r| - 12..] == ", NOT NULL)\n";
      assert r[|r| - 8..][0] == 'T';
    }
  }

  function ColumnLines(cs: seq<Column>): string {
    if |cs| == 0 then "" else ColumnLine(cs[0]) + ColumnLines(cs[1..])
  }

  /** A table block: its title, the column lines, then a blank line. */
  function SectionText(t: TableSection): (r: string)
    ensures StartsWith(r, "Table: " + t.name + "\nColumns:\n")
    ensures EndsWith(r, "\n\n")
  {
    var head := "Table: " + t.name + "\nColumns:\n";
    var body := ColumnLines(t.columns);
    ColumnLinesEndNewline(t.columns);
    assert head[|head| - 1] == '\n';
    SectionShape(head, body);
    head + body + "\n"
  }

  /** A heading line, lines that each end a line, and a blank line. */
  lemma SectionShape(head: string, body: string)
    requires |head| > 0 && head[|head| - 1] == '\n'
    requires |body| == 0 || body[|body| - 1] == '\n'
    ensures StartsWith(head + body + "\n", head)
    ensures EndsWith(head + body + "\n", "\n\n")
  {
    var r := head + body + "\n";
    assert r[..|head|] == head;
    assert r[|r| - 2..] == "\n\n" by {
      assert r[|r| - 1] == '\n';
      if |body| == 0 {
        assert r[|r| - 2] == head[|head| - 1];
      } else {
        assert r[|r| - 2] == body[|body| - 1];
      }
    }
  }

  lemma ColumnLinesEndNewline(cs: seq<Column>)
    ensures |ColumnLines(cs)| == 0 || ColumnLines(cs)[|ColumnLines(cs)| - 1] == '\n'
  {
    if |cs| > 0 {
      var first := ColumnLine(cs[0]);
      assert first[|first| - 1] == '\n';
      ColumnLinesEndNewline(cs[1..]);
    }
  }

  function SectionsText(ts: seq<TableSection>): string {
    if |ts| == 0 then "" else SectionText(ts[0]) + SectionsText(ts[1..])
  }

  function OverflowLine(k: nat): string {
    "\n... and " + NatToString(k) + " more tables\n"
  }

  predicate EndsBlank(s: string) {
    |s| >= 2 && s[|s| - 2] == '\n' && s[|s| - 1] == '\n'
  }

  /** Every table block ends in a blank line, so the text before the
      overflow line does too. */
  lemma {:induction false} SectionsEndBlank(ts: seq<TableSection>)
    ensures EndsBlank(Header + SectionsText(ts))
    decreases |ts|
  {
    if |ts| == 0 {
      assert Header + SectionsText(ts) == Header;
    } else {
      SectionsEndBlank(ts[1..]);
      SectionEndsBlank(ts[0]);
      BlankStep(Header, SectionText(ts[0]), SectionsText(ts[1..]), SectionsText(ts));
    }
  }

  lemma SectionEndsBlank(t: TableSection)
    ensures EndsBlank(SectionText(t))
  {
    var s0 := SectionText(t);
    assert s0[|s0| - 2..] == "\n\n";
  }

  /** One step of the induction, over plain strings. */
  lemma BlankStep(a: string, x: string, rest: string, all: string)
    requires all == x + rest
    requires EndsBlank(x) && EndsBlank(a + rest)
    ensures EndsBlank(a + all)
  {
    EndsBlankAppend(a, x);
    assert a + all == (a + x) + rest;
    EndsBlankKeep(a, x, rest);
  }

  lemma EndsBlankAppend(a: string, b: string)
    requires EndsBlank(b)
    ensures EndsBlank(a + b)
  {
    var r := a + b;
    assert r[|r| - 2] == b[|b| - 2] && r[|r| - 1] == b[|b| - 1];
  }

  /** Appending what ends blank after `a` keeps `x` ending blank whether or
      not anything is appended. */
  lemma EndsBlankKeep(a: string, x: string, rest: string)
    requires EndsBlank(a + x) && EndsBlank(a + rest)
    ensures EndsBlank((a + x) + rest)
  {
    if |rest| == 0 {
      assert (a + x) + rest == a + x;
    } else {
      var r := (a + x) + rest;
      var t := a + rest;
      if |rest| >= 2 {
        assert r[|r| - 2] == rest[|rest| - 2] == t[|t| - 2];
        assert r[|r| - 1] == rest[|rest| - 1] == t[|t| - 1];
      } else {
        assert r[|r| - 1] == rest[0] == t[|t| - 1];
        assert r[|r| - 2] == (a + x)[|a + x| - 1];
      }
    }
  }

  /** The schema text of a document. */
  function Render(d: SchemaDoc): (r: string)
    ensures StartsWith(r, Header)
    ensures d.hidden.Some? <==> EndsWith(r, " more tables\n")
    ensures d.hidden.Some? ==> EndsWith(r, OverflowLine(d.hidden.value))
  {
    var body := Header + SectionsText(d.sections);
    RenderFacts(body, d);
    body + (match d.hidden case Some(k) => OverflowLine(k) case None => "")
  }

  lemma RenderFacts(body: string, d: SchemaDoc)
    requires body == Header + SectionsText(d.sections)
    ensures var r := body + (match d.hidden case Some(k) => OverflowLine(k) case None => "");
            && StartsWith(r, Header)
            && (d.hidden.Some? <==> EndsWith(r, " more tables\n"))
            && (d.hidden.Some? ==> EndsWith(r, OverflowLine(d.hidden.value)))
  {
    assert body[..|Header|] == Header;
    match d.hidden
    case Some(k) =>
      OverflowTail(body, k);
    case None =>
      SectionsEndBlank(d.sections);
      BlankTail(body);
      assert body + "" == body;
  }

  /** The overflow line closes the text and carries the phrase. */
  lemma OverflowTail(body: string, k: nat)
    requires StartsWith(body, Header)
    ensures var r := body + OverflowLine(k);
            StartsWith(r, Header) && EndsWith(r, " more tables\n") && EndsWith(r, OverflowLine(k))
  {
    var r := body + OverflowLine(k);
    var o := OverflowLine(k);
    assert r[..|Header|] == body[..|Header|];
    assert r[|r| - |o|..] == o;
    assert o[|o| - 13..] == " more tables\n";
    assert r[|r| - 13..] == o[|o| - 13..];
  }

  /** Text ending in a blank line cannot end with the overflow phrase. */
  lemma BlankTail(body: string)
    requires EndsBlank(body)
    ensures !EndsWith(body, " more tables\n")
  {
    assert |body| >= 13 ==> body[|body| - 13..][11] == '\n';
  }

  /** Where the table blocks of a list of sections begin: after the blocks
      of the sections before them. */
  function SectionOffset(ts: seq<TableSection>, k: nat): nat
    requires k <= |ts|
  {
    |SectionsText(ts[..k])|
  }

  /** The blocks before section `k`, that section's block, then the rest. */
  lemma SectionsSplit(ts: seq<TableSection>, k: nat)
    requires k < |ts|
    ensures SectionsText(ts) == SectionsText(ts[..k]) + SectionText(ts[k]) + SectionsText(ts[k + 1..])
  {
    SectionsConcat(ts);
    SectionsConcat(ts[..k]);
    SectionsConcat(ts[k + 1..]);
    ConcatMapSplit(ts, SectionText, k);
  }

  /** The text of a list of sections is its blocks one after another. */
  lemma {:induction false} SectionsConcat(ts: seq<TableSection>)
    ensures SectionsText(ts) == ConcatMap(ts, SectionText)
    decreases |ts|
  {
    if |ts| > 0 {
      SectionsConcat(ts[1..]);
    }
  }

  /** Section blocks follow one another: the block of section `k` ends where
      that of section `k + 1` begins. */
  lemma SectionOffsetStep(ts: seq<TableSection>, k: nat)
    requires k < |ts|
    ensures SectionOffset(ts, k + 1) == SectionOffset(ts, k) + |SectionText(ts[k])|
  {
    SectionsSplit(ts[..k + 1], k);
    assert ts[..k + 1][..k] == ts[..k];
    assert ts[..k + 1][k + 1..] == [];
  }

  /** The schema text is the header followed by every table block, in the
      order of the document's sections, each starting where the previous one
      ends. */
  lemma RenderSections(d: SchemaDoc)
    ensures SectionOffset(d.sections, 0) == 0
    ensures forall k :: 0 <= k < |d.sections| ==>
              && SectionOffset(d.sections, k + 1) == SectionOffset(d.sections, k) + |SectionText(d.sections[k])|
              && OccursAt(Render(d), SectionText(d.sections[k]), |Header| + SectionOffset(d.sections, k))
  {
    assert d.sections[..0] == [];
    forall k | 0 <= k < |d.sections|
      ensures SectionOffset(d.sections, k + 1) == SectionOffset(d.sections, k) + |SectionText(d.sections[k])|
      ensures OccursAt(Render(d), SectionText(d.sections[k]), |Header| + SectionOffset(d.sections, k))
    {
      SectionOffsetStep(d.sections, k);
      RenderSection(d, k);
    }
  }

  lemma RenderSection(d: SchemaDoc, k: nat)
    requires k < |d.sections|
    ensures OccursAt(Render(d), SectionText(d.sections[k]), |Header| + SectionOffset(d.sections, k))
  {
    var ts := d.sections;
    RenderIs(d);
    SectionsConcat(ts);
    SectionsConcat(ts[..k]);
    ConcatMapAt(Header, ts, SectionText, k, Tail(d));
  }

  /** What follows the table blocks: the overflow line, if any. */
  function Tail(d: SchemaDoc): string {
    match d.hidden case Some(n) => OverflowLine(n) case None => ""
  }

  lemma RenderIs(d: SchemaDoc)
    ensures Render(d) == Header + SectionsText(d.sections) + Tail(d)
  {
  }

  /** A table block lists its columns in order, one line each, right after
      its heading. */
  lemma SectionLines(t: TableSection, j: nat)
    requires j < |t.columns|
    ensures var head := "Table: " + t.name + "\nColumns:\n";
            OccursAt(SectionText(t), ColumnLine(t.columns[j]), |head| + |ColumnLines(t.columns[..j])|)
  {
    SectionTextIs(t);
    LinesAt("Table: " + t.name + "\nColumns:\n", t.columns, j);
  }

  lemma SectionTextIs(t: TableSection)
    ensures SectionText(t) == "Table: " + t.name + "\nColumns:\n" + ColumnLines(t.columns) + "\n"
  {
  }

  /** Column line `j` follows the lines before it. */
  lemma LinesAt(head: string, cs: seq<Column>, j: nat)
    requires j < |cs|
    ensures OccursAt(head + ColumnLines(cs) + "\n", ColumnLine(cs[j]), |head| + |ColumnLines(cs[..j])|)
  {
    ColumnLinesConcat(cs);
    ColumnLinesConcat(cs[..j]);
    ConcatMapAt(head, cs, ColumnLine, j, "\n");
  }

  lemma {:induction false} ColumnLinesConcat(cs: seq<Column>)
    ensures ColumnLines(cs) == ConcatMap(cs, ColumnLine)
    decreases |cs|
  {
    if |cs| > 0 {
      ColumnLinesConcat(cs[1..]);
    }
  }

  /** `get_schema_info` from the moment the catalog query returns. */
  function SchemaInfo(catalog: Catalog, limit: Option<seq<string>>, maxTables: int): (r: string)
    ensures catalog.QueryFailed? ==> r == "Error retrieving schema: " + catalog.message
    ensures catalog.Rows? ==> r == Render(Document(catalog.rows, limit, maxTables))
    ensures catalog.Rows? ==> StartsWith(r, Header)
  {
    match catalog
    case QueryFailed(msg) => "Error retrieving schema: " + msg
    case Rows(rows) => Render(Document(rows, limit, maxTables))
  }

  /** The overflow line appears exactly when more distinct kept tables exist
      than the cap, and reports how many were left out. */
  lemma OverflowIff(rows: seq<Row>, limit: Option<seq<string>>, maxTables: int)
    ensures var n := |Dedup(KeptNames(rows, limit))|;
            var r := SchemaInfo(Rows(rows), limit, maxTables);
            && (EndsWith(r, " more tables\n") <==> n > maxTables)
            && (n > maxTables ==> EndsWith(r, OverflowLine(n - maxTables)))
  {
  }

  /** The same, for the rendering of an unfiltered catalogue with a cap
      that is not negative: the cap also bounds the tables printed. */
  lemma CappedRender(rows: seq<Row>, maxTables: nat)
    ensures var n := |Dedup(KeptNames(rows, None))|;
            var r := Render(Document(rows, None, maxTables));
            && (EndsWith(r, " more tables\n") <==> n > maxTables)
            && (n > maxTables ==> EndsWith(r, OverflowLine(n - maxTables)))
            && |Document(rows, None, maxTables).sections| == Min(n, maxTables)
  {
  }

  /** Two filters that keep the same names lead to the same grouping. */
  lemma {:induction false} GroupSameFilter(rows: seq<Row>, a: Option<seq<string>>, b: Option<seq<string>>)
    requires forall n :: Kept(a, n) == Kept(b, n)
    ensures Group(rows, a) == Group(rows, b)
    decreases |rows|
  {
    if |rows| > 0 {
      GroupSameFilter(rows[..|rows| - 1], a, b);
    }
  }

  /** `limit_tables=[]` behaves as no filter at all. */
  lemma EmptyFilterIsNoFilter(catalog: Catalog, maxTables: int)
    ensures SchemaInfo(catalog, Some([]), maxTables) == SchemaInfo(catalog, None, maxTables)
  {
    if catalog.Rows? {
      GroupSameFilter(catalog.rows, Some([]), None);
      DocumentFollowsGroup(catalog.rows, Some([]), None, maxTables);
    }
  }

  /** The document depends on the filter only through the grouping. */
  lemma DocumentFollowsGroup(rows: seq<Row>, a: Option<seq<string>>, b: Option<seq<string>>, maxTables: int)
    requires Group(rows, a) == Group(rows, b)
    ensures Document(rows, a, maxTables) == Document(rows, b, maxTables)
  {
  }

  /** Rows that differ at most in COLUMN_DEFAULT group identically. */
  lemma {:induction false} GroupIgnoresDefault(rows: seq<Row>, rows': seq<Row>, limit: Option<seq<string>>)
    requires |rows| == |rows'|
    requires forall i :: 0 <= i < |rows| ==> rows[i].(default := None) == rows'[i].(default := None)
    ensures Group(rows, limit) == Group(rows', limit)
    decreases |rows|
  {
    if |rows| > 0 {
      var n := |rows| - 1;
      assert rows[n].(default := None) == rows'[n].(default := None);
      GroupIgnoresDefault(rows[..n], rows'[..n], limit);
    }
  }

  /** COLUMN_DEFAULT never reaches the schema text. */
  lemma DefaultNeverPrinted(rows: seq<Row>, rows': seq<Row>, limit: Option<seq<string>>, maxTables: int)
    requires |rows| == |rows'|
    requires forall i :: 0 <= i < |rows| ==> rows[i].(default := None) == rows'[i].(default := None)
    ensures SchemaInfo(Rows(rows), limit, maxTables) == SchemaInfo(Rows(rows'), limit, maxTables)
  {
    GroupIgnoresDefault(rows, rows', limit);
    assert Document(rows, limit, maxTables) == Document(rows', limit, maxTables);
  }

  // The connection string.

  const DefaultDriver: string := "ODBC Driver 18 for SQL Server"

  /** The ODBC connection string before URL encoding. */
  function OdbcString(driver: string, server: string, database: string,
                      username: string, password: string, trust: bool): string
  {
    ("DRIVER={" + driver + "};")
    + ("SERVER=" + server + ";")
    + ("DATABASE=" + database + ";")
    + ("UID=" + username + ";")
    + ("PWD=" + password + ";")
    + ("TrustServerCertificate=" + (if trust then "yes" else "no") + ";")
  }

  /** Position of the first `c` in `s`. */
  function CharIndex(s: string, c: char): (i: nat)
    requires c in s
    ensures i < |s| && s[i] == c && c !in s[..i]
  {
    if s[0] == c then 0
    else
      var k := CharIndex(s[1..], c);
      assert s[..k + 1] == [s[0]] + s[1..][..k];
      1 + k
  }

  /** Python's `s.split(sep)` for a one-character separator. */
  function Split(s: string, sep: char): (r: seq<string>)
    ensures |r| > 0
    decreases |s|
  {
    if sep !in s then [s]
    else
      var i := CharIndex(s, sep);
      [s[..i]] + Split(s[i + 1..], sep)
  }

  /** Splitting at the first separator. */
  lemma SplitFirst(a: string, b: string, sep: char)
    requires sep !in a
    ensures Split(a + [sep] + b, sep) == [a] + Split(b, sep)
  {
    var s := a + [sep] + b;
    assert s[|a|] == sep;
    var i := CharIndex(s, sep);
    assert s[..|a|] == a;
    assert i == |a|;
    assert s[..i] == a;
    assert s[i + 1..] == b;
  }

  /** Each segment followed by ';'. */
  function Terminated(segs: seq<string>): string {
    if |segs| == 0 then "" else segs[0] + ";" + Terminated(segs[1..])
  }

  /** Splitting separator-terminated segments gives the segments back, and
      an empty last piece. */
  lemma {:induction false} SplitTerminated(segs: seq<string>)
    requires forall k :: 0 <= k < |segs| ==> ';' !in segs[k]
    ensures Split(Terminated(segs), ';') == segs + [""]
    decreases |segs|
  {
    if |segs| == 0 {
      assert Split("", ';') == [""];
    } else {
      SplitTerminated(segs[1..]);
      SplitFirst(segs[0], Terminated(segs[1..]), ';');
      assert Terminated(segs) == segs[0] + [';'] + Terminated(segs[1..]);
      assert segs == [segs[0]] + segs[1..];
    }
  }

  /** The six `key=value` segments of the connection string, in order. */
  function OdbcSegmentList(driver: string, server: string, database: string,
                           username: string, password: string, trust: bool): seq<string>
  {
    [ "DRIVER={" + driver + "}",
      "SERVER=" + server,
      "DATABASE=" + database,
      "UID=" + username,
      "PWD=" + password,
      "TrustServerCertificate=" + (if trust then "yes" else "no") ]
  }

  /** Read back with `split(';')`, the connection string is the six
      `key=value` segments in their fixed order, each closed by ';'
      (hence the empty last piece), provided no value contains ';'. */
  lemma OdbcSegments(driver: string, server: string, database: string,
                     username: string, password: string, trust: bool)
    requires ';' !in driver && ';' !in server && ';' !in database
    requires ';' !in username && ';' !in password
    ensures Split(OdbcString(driver, server, database, username, password, trust), ';') ==
            OdbcSegmentList(driver, server, database, username, password, trust) + [""]
  {
    var segs := OdbcSegmentList(driver, server, database, username, password, trust);
    NoSeparatorInSegments(driver, server, database, username, password, trust);
    SplitTerminated(segs);
    OdbcIsTerminated(driver, server, database, username, password, trust);
  }

  lemma NoSeparatorJoin(a: string, b: string)
    requires ';' !in a && ';' !in b
    ensures ';' !in a + b
  {
  }

  lemma NoSeparatorInSegments(driver: string, server: string, database: string,
                              username: string, password: string, trust: bool)
    requires ';' !in driver && ';' !in server && ';' !in database
    requires ';' !in username && ';' !in password
    ensures var segs := OdbcSegmentList(driver, server, database, username, password, trust);
            forall k :: 0 <= k < |segs| ==> ';' !in segs[k]
  {
    NoSeparatorJoin("DRIVER={", driver);
    NoSeparatorJoin("DRIVER={" + driver, "}");
    NoSeparatorJoin("SERVER=", server);
    NoSeparatorJoin("DATABASE=", database);
    NoSeparatorJoin("UID=", username);
    NoSeparatorJoin("PWD=", password);
    NoSeparatorJoin("TrustServerCertificate=", if trust then "yes" else "no");
  }

  lemma TerminatedSix(a: string, b: string, c: string, d: string, e: string, f: string)
    ensures Terminated([a, b, c, d, e, f]) == a + ";" + b + ";" + c + ";" + d + ";" + e + ";" + f + ";"
  {
    assert Terminated([f]) == f + ";" by { assert [f][1..] == []; }
    assert Terminated([e, f]) == e + ";" + f + ";" by { assert [e, f][1..] == [f]; }
    assert Terminated([d, e, f]) == d + ";" + e + ";" + f + ";" by { assert [d, e, f][1..] == [e, f]; }
    assert Terminated([c, d, e, f]) == c + ";" + d + ";" + e + ";" + f + ";" by {
      assert [c, d, e, f][1..] == [d, e, f];
    }
    assert Terminated([b, c, d, e, f]) == b + ";" + c + ";" + d + ";" + e + ";" + f + ";" by {
      assert [b, c, d, e, f][1..] == [c, d, e, f];
    }
    assert [a, b, c, d, e, f][1..] == [b, c, d, e, f];
  }

  lemma OdbcIsTerminated(driver: string, server: string, database: string,
                         username: string, password: string, trust: bool)
    ensures Terminated(OdbcSegmentList(driver, server, database, username, password, trust))
            == OdbcString(driver, server, database, username, password, trust)
  {
    var segs := OdbcSegmentList(driver, server, database, username, password, trust);
    TerminatedSix(segs[0], segs[1], segs[2], segs[3], segs[4], segs[5]);
    assert "DRIVER={" + driver + "};" == segs[0] + ";";
  }

  /** A database engine, identified by the connection string it was built
      from. */
  datatype Engine = Engine(odbc: string)

  /** `create_db_engine`, up to URL encoding and the driver itself. */
  function CreateEngine(driver: string, server: string, database: string,
                        username: string, password: string, trust: bool): (e: Engine)
    ensures EndsWith(e.odbc, if trust then "TrustServerCertificate=yes;" else "TrustServerCertificate=no;")
  {
    var e := Engine(OdbcString(driver, server, database, username, password, trust));
    var tail := if trust then "TrustServerCertificate=yes;" else "TrustServerCertificate=no;";
    assert e.odbc[|e.odbc| - |tail|..] == tail;
    e
  }

  const ConnectedPrefix: string := "Connected successfully. SQL Server version: "

  /** `validate_connection`: `probe` stands for running `SELECT @@VERSION` on
      the engine, answering the version text or the message of the exception
      raised on the way. The reply shows at most fifty characters of the
      version. */
  function ValidateConnection(engine: Engine, probe: Engine -> Result<string>): (r: (bool, string))
    ensures r.0 <==> probe(engine).Ok?
    ensures r.0 ==> var v := probe(engine).value;
                    && StartsWith(r.1, ConnectedPrefix) && EndsWith(r.1, "...")
                    && |r.1| == |ConnectedPrefix| + Min(|v|, 50) + 3
                    && StartsWith(v, r.1[|ConnectedPrefix|..|r.1| - 3])
    ensures !r.0 ==> r.1 == "Connection failed: " + probe(engine).message
  {
    match probe(engine)
    case Ok(version) =>
      var shown := SliceHead(version, 50);
      var r := ConnectedPrefix + shown + "...";
      assert r[|ConnectedPrefix|..|r| - 3] == shown;
      assert r[|r| - 3..] == "...";
      (true, r)
    case Raised(m) => (false, "Connection failed: " + m)
  }
}
