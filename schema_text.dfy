/**
 * The schema descriptions the DIN-SQL prompts are filled with. The class
 * walks the database catalog through an inspector and grows an output string
 * (or list) in nested loops; here the catalog the inspector would report is
 * an argument, and each formatter is a loop proved equal to a declarative
 * description of its output.
 */
module SchemaText {
  import opened Wrappers
  import opened Strings

  /** One entry of `get_foreign_keys`: the columns it constrains and what they refer to. */
  datatype ForeignKey = ForeignKey(constrainedColumns: seq<string>, referredTable: string, referredColumns: seq<string>)

  /**
   * One item met when iterating over what `get_pk_constraint` returns: a
   * plain key (iterating over a dictionary yields its keys) or a dictionary,
   * with its "constrained_columns" entry when it has one.
   */
  datatype PkItem = PlainItem(key: string) | DictItem(constrainedColumns: Option<seq<string>>)

  /** A table with its column names, its foreign keys and its primary-key items. */
  datatype Table = Table(name: string, columns: seq<string>, foreignKeys: seq<ForeignKey>, pkItems: seq<PkItem>)

  /** A schema (a database, in the class's words) and its tables, in the inspector's order. */
  datatype Schema = Schema(name: string, tables: seq<Table>)

  /** Which schemas a formatter walks: the one named, or all but one. */
  datatype Selection = Only(name: string) | AllBut(name: string)

  const InformationSchema: string := "information_schema"

  predicate Keeps(sel: Selection, schemaName: string) {
    match sel
    case Only(n) => schemaName == n
    case AllBut(n) => schemaName != n
  }

  predicate HasSchema(catalog: seq<Schema>, name: string) {
    exists s | s in catalog :: s.name == name
  }

  /**
   * `if db_name and db_name in schemas`: a non-empty database name that the
   * catalog holds selects that schema alone; anything else selects every
   * schema but "information_schema".
   */
  function SelectionFor(catalog: seq<Schema>, dbName: Option<string>): (sel: Selection)
    ensures sel.Only? <==> dbName.Some? && dbName.value != "" && HasSchema(catalog, dbName.value)
    ensures sel.Only? ==> sel == Only(dbName.value)
    ensures sel.AllBut? ==> sel == AllBut(InformationSchema)
  {
    if dbName.Some? && dbName.value != "" && HasSchema(catalog, dbName.value) then Only(dbName.value)
    else AllBut(InformationSchema)
  }

  /** No selected schema among the first `i` holds a table. */
  predicate NoTables(ss: seq<Schema>, sel: Selection, i: nat)
    requires i <= |ss|
  {
    forall a :: 0 <= a < i && Keeps(sel, ss[a].name) ==> |ss[a].tables| == 0
  }

  lemma NoTablesStep(ss: seq<Schema>, sel: Selection, i: nat)
    requires 0 < i <= |ss|
    ensures NoTables(ss, sel, i) <==> NoTables(ss, sel, i - 1) && (Keeps(sel, ss[i - 1].name) ==> |ss[i - 1].tables| == 0)
  {
  }

  /** Appending a part and a separator extends the loop-built list by one part. */
  lemma TerminatedStep(parts: seq<string>, k: nat, sep: string)
    requires k < |parts|
    ensures Terminated(parts[..k + 1], sep) == Terminated(parts[..k], sep) + parts[k] + sep
  {
    assert parts[..k + 1] == parts[..k] + [parts[k]];
    TerminatedSnoc(parts[..k], parts[k], sep);
  }

  // ------------------------------------------------------------ find_fields

  function Header(t: Table): string {
    "Table " + t.name + ", columns = ["
  }

  /**
   * The description of one table: its column names joined by commas in
   * brackets. A table without columns loses the opening bracket instead of
   * a trailing comma.
   */
  function FieldsSegment(t: Table): string {
    if |t.columns| == 0 then "Table " + t.name + ", columns = ]\n"
    else Header(t) + Join(t.columns, ",") + "]\n"
  }

  /** `acc` followed by the segments of the first `j` tables. */
  function FieldsOfTablesOnto(acc: string, ts: seq<Table>, j: nat): string
    requires j <= |ts|
  {
    if j == 0 then acc else FieldsOfTablesOnto(acc, ts, j - 1) + FieldsSegment(ts[j - 1])
  }

  /** The segments of the tables of the selected schemas among the first `i`. */
  function FieldsOfSchemas(ss: seq<Schema>, sel: Selection, i: nat): string
    requires i <= |ss|
  {
    if i == 0 then ""
    else
      var s := ss[i - 1];
      var prev := FieldsOfSchemas(ss, sel, i - 1);
      if Keeps(sel, s.name) then FieldsOfTablesOnto(prev, s.tables, |s.tables|) else prev
  }

  /**
   * What `find_fields` returns: "[]" exactly when no selected schema holds a
   * table; otherwise the segments themselves.
   */
  function FieldsText(catalog: seq<Schema>, dbName: Option<string>): (r: string)
    ensures var sel := SelectionFor(catalog, dbName);
      (r == "[]" <==> NoTables(catalog, sel, |catalog|)) &&
      (!NoTables(catalog, sel, |catalog|) ==> r == FieldsOfSchemas(catalog, sel, |catalog|))
  {
    var body := FieldsOfSchemas(catalog, SelectionFor(catalog, dbName), |catalog|);
    FieldsOfSchemasShape(catalog, SelectionFor(catalog, dbName), |catalog|);
    if |body| > 2 then body else "[]"
  }

  /** Every segment is longer than the "[]" fallback. */
  lemma {:induction false} FieldsOfTablesShape(acc: string, ts: seq<Table>, j: nat)
    requires j <= |ts|
    ensures |FieldsOfTablesOnto(acc, ts, j)| >= |acc| + 3 * j
  {
    if j > 0 {
      FieldsOfTablesShape(acc, ts, j - 1);
      SegmentLength(ts[j - 1]);
    }
  }

  lemma SegmentLength(t: Table)
    ensures |FieldsSegment(t)| > 2
  {
    if |t.columns| > 0 {
      JoinLength(t.columns, ",");
    }
  }

  lemma {:induction false} FieldsOfSchemasShape(ss: seq<Schema>, sel: Selection, i: nat)
    requires i <= |ss|
    ensures NoTables(ss, sel, i) ==> |FieldsOfSchemas(ss, sel, i)| == 0
    ensures !NoTables(ss, sel, i) ==> |FieldsOfSchemas(ss, sel, i)| > 2
  {
    if i > 0 {
      var s := ss[i - 1];
      NoTablesStep(ss, sel, i);
      FieldsOfSchemasShape(ss, sel, i - 1);
      FieldsOfTablesShape(FieldsOfSchemas(ss, sel, i - 1), s.tables, |s.tables|);
    }
  }

  /**
   * A segment lists the table's columns: when they hold no comma, splitting
   * what lies between the brackets at commas gives them back.
   */
  lemma FieldsSegmentColumns(t: Table)
    requires |t.columns| > 0
    requires forall k :: 0 <= k < |t.columns| ==> ',' !in t.columns[k]
    ensures var seg := FieldsSegment(t); var h := Header(t);
      |h| + 2 <= |seg| && seg[..|h|] == h && seg[|seg| - 2..] == "]\n" &&
      Split(seg[|h|..|seg| - 2], ",") == t.columns
  {
    var seg := FieldsSegment(t);
    var h := Header(t);
    var body := Join(t.columns, ",");
    assert seg == h + body + "]\n";
    assert seg[|h|..|seg| - 2] == body;
    JoinSplit(t.columns, ',');
  }

  /** The `output[:-1]` and `"]\n"` that close a table's segment. */
  lemma CloseSegment(prefix: string, t: Table)
    ensures DropLast(prefix + Header(t) + Terminated(t.columns, ",")) + "]\n" == prefix + FieldsSegment(t)
  {
    var h := Header(t);
    assert prefix + h + Terminated(t.columns, ",") == prefix + (h + Terminated(t.columns, ","));
    DropLastConcat(prefix, h + Terminated(t.columns, ","));
    if |t.columns| == 0 {
      assert DropLast(h) == "Table " + t.name + ", columns = ";
    } else {
      TerminatedIsJoin(t.columns, ",");
      DropLastConcat(h, Terminated(t.columns, ","));
      TrimTerminated(t.columns, ',');
    }
  }

  /**
   * The body of `find_fields`' table loop: the header, each column with a
   * comma, `output[:-1]`, then the closing bracket and newline.
   */
  method AppendSegment(output: string, t: Table) returns (o: string)
    ensures o == output + FieldsSegment(t)
  {
    o := output + "Table " + t.name + ", columns = [";
    var k := 0;
    while k < |t.columns|
      invariant 0 <= k <= |t.columns|
      invariant o == output + Header(t) + Terminated(t.columns[..k], ",")
    {
      TerminatedStep(t.columns, k, ",");
      o := o + t.columns[k] + ",";
      k := k + 1;
    }
    assert t.columns[..k] == t.columns;
    CloseSegment(output, t);
    o := DropLast(o);
    o := o + "]\n";
  }

  lemma FieldsOfTablesStep(acc: string, ts: seq<Table>, j: nat)
    requires j < |ts|
    ensures FieldsOfTablesOnto(acc, ts, j + 1) == FieldsOfTablesOnto(acc, ts, j) + FieldsSegment(ts[j])
  {
  }

  lemma FieldsOfSchemasStep(ss: seq<Schema>, sel: Selection, i: nat)
    requires i < |ss|
    ensures var prev := FieldsOfSchemas(ss, sel, i);
      FieldsOfSchemas(ss, sel, i + 1) ==
        if Keeps(sel, ss[i].name) then FieldsOfTablesOnto(prev, ss[i].tables, |ss[i].tables|) else prev
  {
  }

  /** The table loop of `find_fields` for one selected schema. */
  method AppendSchemaFields(output: string, ts: seq<Table>) returns (o: string)
    ensures o == FieldsOfTablesOnto(output, ts, |ts|)
  {
    o := output;
    var j := 0;
    while j < |ts|
      invariant 0 <= j <= |ts|
      invariant o == FieldsOfTablesOnto(output, ts, j)
    {
      FieldsOfTablesStep(output, ts, j);
      o := AppendSegment(o, ts[j]);
      j := j + 1;
    }
  }

  /** The schema loop of `find_fields`: the segments of every table of the selected schemas. */
  method AppendFields(catalog: seq<Schema>, sel: Selection) returns (output: string)
    ensures output == FieldsOfSchemas(catalog, sel, |catalog|)
  {
    output := "";
    var i := 0;
    while i < |catalog|
      invariant 0 <= i <= |catalog|
      invariant output == FieldsOfSchemas(catalog, sel, i)
    {
      output := AppendSelectedFields(catalog, sel, i, output);
      i := i + 1;
    }
  }

  /** One round of the schema loop: a selected schema's tables are described, any other is skipped. */
  method AppendSelectedFields(catalog: seq<Schema>, sel: Selection, i: nat, output: string) returns (o: string)
    requires i < |catalog| && output == FieldsOfSchemas(catalog, sel, i)
    ensures o == FieldsOfSchemas(catalog, sel, i + 1)
  {
    FieldsOfSchemasStep(catalog, sel, i);
    o := output;
    if Keeps(sel, catalog[i].name) {
      o := AppendSchemaFields(output, catalog[i].tables);
    }
  }

  /**
   * `find_fields`: one segment per table of the selected schemas, each built
   * column by column with a trailing comma that is then cut off; "[]" when
   * there is none.
   */
  method FindFields(catalog: seq<Schema>, dbName: Option<string>) returns (r: string)
    ensures r == FieldsText(catalog, dbName)
  {
    var sel := SelectionFor(catalog, dbName);
    var output := AppendFields(catalog, sel);
    r := if |output| > 2 then output else "[]";
  }

  // ------------------------------------------- find_foreign_keys, find_primary_keys

  /**
   * The two key listings walk the catalog the same way and differ only in
   * the items they visit in a table, which of them add an entry, and what
   * the entry says.
   */
  datatype KeyKind = ForeignKeys | PrimaryKeys

  /** The number of items the listing visits in table `t`. */
  function KeyCount(kind: KeyKind, t: Table): nat {
    if kind.ForeignKeys? then |t.foreignKeys| else |t.pkItems|
  }

  /**
   * Whether item `k` adds an entry. Every foreign key does; a primary-key
   * item does only when it is a dictionary with a "constrained_columns" entry.
   */
  predicate Emits(kind: KeyKind, t: Table, k: nat)
    requires k < KeyCount(kind, t)
  {
    match kind
    case ForeignKeys => true
    case PrimaryKeys => t.pkItems[k].DictItem? && t.pkItems[k].constrainedColumns.Some?
  }

  /** Whether building item `k`'s entry indexes only non-empty column lists. */
  predicate EntryOk(kind: KeyKind, t: Table, k: nat)
    requires k < KeyCount(kind, t)
  {
    match kind
    case ForeignKeys => |t.foreignKeys[k].constrainedColumns| > 0 && |t.foreignKeys[k].referredColumns| > 0
    case PrimaryKeys => Emits(kind, t, k) ==> |t.pkItems[k].constrainedColumns.value| > 0
  }

  /**
   * The entry of item `k`: `table.column = referred_table.referred_column`
   * for a foreign key, `table.column` for a primary key, each naming only
   * the first column of its list.
   */
  function KeyEntry(kind: KeyKind, t: Table, k: nat): string
    requires k < KeyCount(kind, t) && Emits(kind, t, k) && EntryOk(kind, t, k)
  {
    match kind
    case ForeignKeys =>
      var fk := t.foreignKeys[k];
      t.name + "." + fk.constrainedColumns[0] + " = " + fk.referredTable + "." + fk.referredColumns[0]
    case PrimaryKeys => t.name + "." + t.pkItems[k].constrainedColumns.value[0]
  }

  predicate ItemsOk(kind: KeyKind, t: Table, k: nat)
    requires k <= KeyCount(kind, t)
  {
    forall c :: 0 <= c < k ==> EntryOk(kind, t, c)
  }

  predicate TablesOk(kind: KeyKind, ts: seq<Table>, j: nat)
    requires j <= |ts|
  {
    forall b :: 0 <= b < j ==> ItemsOk(kind, ts[b], KeyCount(kind, ts[b]))
  }

  /** No selected table among the first `i` schemas holds an item whose entry would raise. */
  predicate SchemasOk(kind: KeyKind, ss: seq<Schema>, sel: Selection, i: nat)
    requires i <= |ss|
  {
    forall a :: 0 <= a < i && Keeps(sel, ss[a].name) ==> TablesOk(kind, ss[a].tables, |ss[a].tables|)
  }

  /** `acc` followed by the entries of the first `k` items, each with a comma. */
  function KeysOnto(kind: KeyKind, acc: string, t: Table, k: nat): string
    requires k <= KeyCount(kind, t) && ItemsOk(kind, t, k)
  {
    if k == 0 then acc
    else
      var prev := KeysOnto(kind, acc, t, k - 1);
      if Emits(kind, t, k - 1) then prev + KeyEntry(kind, t, k - 1) + "," else prev
  }

  function TablesKeysOnto(kind: KeyKind, acc: string, ts: seq<Table>, j: nat): string
    requires j <= |ts| && TablesOk(kind, ts, j)
  {
    if j == 0 then acc
    else KeysOnto(kind, TablesKeysOnto(kind, acc, ts, j - 1), ts[j - 1], KeyCount(kind, ts[j - 1]))
  }

  /** `start` followed by the entries of the selected schemas among the first `i`. */
  function KeysOfSchemas(kind: KeyKind, start: string, ss: seq<Schema>, sel: Selection, i: nat): string
    requires i <= |ss| && SchemasOk(kind, ss, sel, i)
  {
    if i == 0 then start
    else
      var s := ss[i - 1];
      var prev := KeysOfSchemas(kind, start, ss, sel, i - 1);
      if Keeps(sel, s.name) then TablesKeysOnto(kind, prev, s.tables, |s.tables|) else prev
  }

  /** The entries themselves, as a list: `accs` followed by those of the first `k` items. */
  function KeyEntriesOnto(kind: KeyKind, accs: seq<string>, t: Table, k: nat): seq<string>
    requires k <= KeyCount(kind, t) && ItemsOk(kind, t, k)
  {
    if k == 0 then accs
    else
      var prev := KeyEntriesOnto(kind, accs, t, k - 1);
      if Emits(kind, t, k - 1) then prev + [KeyEntry(kind, t, k - 1)] else prev
  }

  function TablesKeyEntriesOnto(kind: KeyKind, accs: seq<string>, ts: seq<Table>, j: nat): seq<string>
    requires j <= |ts| && TablesOk(kind, ts, j)
  {
    if j == 0 then accs
    else KeyEntriesOnto(kind, TablesKeyEntriesOnto(kind, accs, ts, j - 1), ts[j - 1], KeyCount(kind, ts[j - 1]))
  }

  function KeyEntries(kind: KeyKind, ss: seq<Schema>, sel: Selection, i: nat): seq<string>
    requires i <= |ss| && SchemasOk(kind, ss, sel, i)
  {
    if i == 0 then []
    else
      var s := ss[i - 1];
      var prev := KeyEntries(kind, ss, sel, i - 1);
      if Keeps(sel, s.name) then TablesKeyEntriesOnto(kind, prev, s.tables, |s.tables|) else prev
  }

  /** The loop-built text is the entry list, each entry followed by a comma. */
  lemma {:induction false} KeysOntoEntries(kind: KeyKind, p: string, accs: seq<string>, t: Table, k: nat)
    requires k <= KeyCount(kind, t) && ItemsOk(kind, t, k)
    ensures KeysOnto(kind, p + Terminated(accs, ","), t, k) == p + Terminated(KeyEntriesOnto(kind, accs, t, k), ",")
  {
    if k > 0 {
      var i := k - 1;
      assert ItemsOk(kind, t, i);
      KeysOntoEntries(kind, p, accs, t, i);
      if Emits(kind, t, i) {
        EmittedEntry(kind, p + Terminated(accs, ","), p, KeyEntriesOnto(kind, accs, t, i), t, i);
      }
    }
  }

  /** One emitting item adds its entry and a comma to both forms. */
  lemma EmittedEntry(kind: KeyKind, acc: string, p: string, es: seq<string>, t: Table, i: nat)
    requires i < KeyCount(kind, t) && ItemsOk(kind, t, i + 1) && Emits(kind, t, i)
    requires KeysOnto(kind, acc, t, i) == p + Terminated(es, ",")
    ensures KeysOnto(kind, acc, t, i + 1) == p + Terminated(es + [KeyEntry(kind, t, i)], ",")
  {
    TerminatedAppend(p, es, KeyEntry(kind, t, i), ",");
  }

  lemma {:induction false} TablesKeysOntoEntries(kind: KeyKind, p: string, accs: seq<string>, ts: seq<Table>, j: nat)
    requires j <= |ts| && TablesOk(kind, ts, j)
    ensures TablesKeysOnto(kind, p + Terminated(accs, ","), ts, j) == p + Terminated(TablesKeyEntriesOnto(kind, accs, ts, j), ",")
  {
    if j > 0 {
      TablesKeysOntoEntries(kind, p, accs, ts, j - 1);
      KeysOntoEntries(kind, p, TablesKeyEntriesOnto(kind, accs, ts, j - 1), ts[j - 1], KeyCount(kind, ts[j - 1]));
    }
  }

  lemma {:induction false} KeysOfSchemasEntries(kind: KeyKind, start: string, ss: seq<Schema>, sel: Selection, i: nat)
    requires i <= |ss| && SchemasOk(kind, ss, sel, i)
    ensures KeysOfSchemas(kind, start, ss, sel, i) == start + Terminated(KeyEntries(kind, ss, sel, i), ",")
  {
    if i == 0 {
      assert start + Terminated([], ",") == start;
    } else {
      var s := ss[i - 1];
      KeysOfSchemasEntries(kind, start, ss, sel, i - 1);
      if Keeps(sel, s.name) {
        TablesKeysOntoEntries(kind, start, KeyEntries(kind, ss, sel, i - 1), s.tables, |s.tables|);
      }
    }
  }

  /** `x` is the entry of item `c` of table `t`. */
  predicate IsEntryOf(kind: KeyKind, t: Table, c: int, x: string) {
    0 <= c < KeyCount(kind, t) && Emits(kind, t, c) && EntryOk(kind, t, c) && x == KeyEntry(kind, t, c)
  }

  /** The entries of a table are those of its emitting items, and nothing else. */
  lemma {:induction false} KeyEntriesOntoMembers(kind: KeyKind, accs: seq<string>, t: Table, k: nat, x: string)
    requires k <= KeyCount(kind, t) && ItemsOk(kind, t, k)
    ensures x in KeyEntriesOnto(kind, accs, t, k) <==> x in accs || exists c :: c < k && IsEntryOf(kind, t, c, x)
  {
    if k > 0 {
      KeyEntriesOntoMembers(kind, accs, t, k - 1, x);
      if IsEntryOf(kind, t, k - 1, x) {
        assert x in KeyEntriesOnto(kind, accs, t, k);
      }
    }
  }

  lemma {:induction false} TablesKeyEntriesOntoMembers(kind: KeyKind, accs: seq<string>, ts: seq<Table>, j: nat, x: string)
    requires j <= |ts| && TablesOk(kind, ts, j)
    ensures x in TablesKeyEntriesOnto(kind, accs, ts, j) <==>
      x in accs || exists b, c :: 0 <= b < j && IsEntryOf(kind, ts[b], c, x)
  {
    if j > 0 {
      var prev := TablesKeyEntriesOnto(kind, accs, ts, j - 1);
      TablesKeyEntriesOntoMembers(kind, accs, ts, j - 1, x);
      KeyEntriesOntoMembers(kind, prev, ts[j - 1], KeyCount(kind, ts[j - 1]), x);
      var t := ts[j - 1];
      if exists c :: IsEntryOf(kind, t, c, x) {
        var c :| IsEntryOf(kind, t, c, x);
        assert c < KeyCount(kind, t);
      }
    }
  }

  /**
   * The entry list of a listing: exactly the entries of the emitting items
   * of the tables of the selected schemas.
   */
  lemma {:induction false} KeyEntriesMembers(kind: KeyKind, ss: seq<Schema>, sel: Selection, i: nat, x: string)
    requires i <= |ss| && SchemasOk(kind, ss, sel, i)
    ensures x in KeyEntries(kind, ss, sel, i) <==>
      exists a, b, c :: 0 <= a < i && Keeps(sel, ss[a].name) && 0 <= b < |ss[a].tables| && IsEntryOf(kind, ss[a].tables[b], c, x)
  {
    if i > 0 {
      var s := ss[i - 1];
      var prev := KeyEntries(kind, ss, sel, i - 1);
      KeyEntriesMembers(kind, ss, sel, i - 1, x);
      if Keeps(sel, s.name) {
        TablesKeyEntriesOntoMembers(kind, prev, s.tables, |s.tables|, x);
      }
    }
  }

  /** What `find_foreign_keys` returns, or the `IndexError` it raises. */
  function ForeignKeysText(catalog: seq<Schema>, dbName: Option<string>): (r: Result<string, Exception>)
    ensures r.Failure? ==> r.error == IndexError
  {
    var sel := SelectionFor(catalog, dbName);
    if !SchemasOk(ForeignKeys, catalog, sel, |catalog|) then Failure(IndexError)
    else
      var o := DropLast(KeysOfSchemas(ForeignKeys, "[", catalog, sel, |catalog|)) + "]";
      Success(if |o| > 2 then o else "[]")
  }

  /** What `find_primary_keys` returns, or the `IndexError` it raises. */
  function PrimaryKeysText(catalog: seq<Schema>, dbName: Option<string>): (r: Result<string, Exception>)
    ensures r.Failure? ==> r.error == IndexError
  {
    var sel := SelectionFor(catalog, dbName);
    if !SchemasOk(PrimaryKeys, catalog, sel, |catalog|) then Failure(IndexError)
    else
      var o := DropLast(KeysOfSchemas(PrimaryKeys, "", catalog, sel, |catalog|)) + "]\n";
      Success(if |o| > 2 then o else "[]")
  }

  /** A table holding an item whose entry would raise makes the whole listing raise. */
  lemma BadSchema(kind: KeyKind, ss: seq<Schema>, sel: Selection, a: nat)
    requires a < |ss| && Keeps(sel, ss[a].name) && !TablesOk(kind, ss[a].tables, |ss[a].tables|)
    ensures !SchemasOk(kind, ss, sel, |ss|)
  {
  }

  /** A table holding an item whose entry would raise makes its schema's tables raise. */
  lemma BadTable(kind: KeyKind, ts: seq<Table>, j: nat)
    requires j < |ts| && !ItemsOk(kind, ts[j], KeyCount(kind, ts[j]))
    ensures !TablesOk(kind, ts, |ts|)
  {
  }

  lemma TablesStep(kind: KeyKind, acc: string, ts: seq<Table>, j: nat)
    requires j < |ts| && TablesOk(kind, ts, j) && ItemsOk(kind, ts[j], KeyCount(kind, ts[j]))
    ensures TablesOk(kind, ts, j + 1)
    ensures TablesKeysOnto(kind, acc, ts, j + 1) == KeysOnto(kind, TablesKeysOnto(kind, acc, ts, j), ts[j], KeyCount(kind, ts[j]))
  {
  }

  lemma SchemasOkStep(kind: KeyKind, ss: seq<Schema>, sel: Selection, i: nat)
    requires i < |ss| && SchemasOk(kind, ss, sel, i)
    requires Keeps(sel, ss[i].name) ==> TablesOk(kind, ss[i].tables, |ss[i].tables|)
    ensures SchemasOk(kind, ss, sel, i + 1)
  {
  }

  /**
   * The foreign keys of one table, each entry followed by a comma, after
   * `output`; `None` when one of them has an empty column list.
   */
  method AppendForeignKeys(output: string, t: Table) returns (o: Option<string>)
    ensures o.Some? <==> ItemsOk(ForeignKeys, t, |t.foreignKeys|)
    ensures o.Some? ==> o.value == KeysOnto(ForeignKeys, output, t, |t.foreignKeys|)
  {
    var acc := output;
    var k := 0;
    while k < |t.foreignKeys|
      invariant 0 <= k <= |t.foreignKeys|
      invariant ItemsOk(ForeignKeys, t, k)
      invariant acc == KeysOnto(ForeignKeys, output, t, k)
    {
      var fk := t.foreignKeys[k];
      if |fk.constrainedColumns| == 0 || |fk.referredColumns| == 0 {
        assert !EntryOk(ForeignKeys, t, k);
        return None;
      }
      acc := acc + (t.name + "." + fk.constrainedColumns[0] + " = " + fk.referredTable + "." + fk.referredColumns[0]) + ",";
      k := k + 1;
    }
    o := Some(acc);
  }

  /** The entries of a schema's tables after `output`; `None` when one of them would raise. */
  method AppendSchemaForeignKeys(output: string, ts: seq<Table>) returns (o: Option<string>)
    ensures o.Some? <==> TablesOk(ForeignKeys, ts, |ts|)
    ensures o.Some? ==> o.value == TablesKeysOnto(ForeignKeys, output, ts, |ts|)
  {
    var acc := output;
    var j := 0;
    while j < |ts|
      invariant 0 <= j <= |ts|
      invariant TablesOk(ForeignKeys, ts, j)
      invariant acc == TablesKeysOnto(ForeignKeys, output, ts, j)
    {
      var next := AppendForeignKeys(acc, ts[j]);
      if next.None? {
        BadTable(ForeignKeys, ts, j);
        return None;
      }
      TablesStep(ForeignKeys, output, ts, j);
      acc := next.value;
      j := j + 1;
    }
    o := Some(acc);
  }

  /**
   * The primary-key items of one table: a dictionary with a
   * "constrained_columns" entry adds its entry and a comma, anything else
   * nothing; `None` when such an entry's column list is empty.
   */
  method AppendPrimaryKeys(output: string, t: Table) returns (o: Option<string>)
    ensures o.Some? <==> ItemsOk(PrimaryKeys, t, |t.pkItems|)
    ensures o.Some? ==> o.value == KeysOnto(PrimaryKeys, output, t, |t.pkItems|)
  {
    var acc := output;
    var k := 0;
    while k < |t.pkItems|
      invariant 0 <= k <= |t.pkItems|
      invariant ItemsOk(PrimaryKeys, t, k)
      invariant acc == KeysOnto(PrimaryKeys, output, t, k)
    {
      var pk := t.pkItems[k];
      if pk.DictItem? && pk.constrainedColumns.Some? {
        if |pk.constrainedColumns.value| == 0 {
          assert !EntryOk(PrimaryKeys, t, k);
          return None;
        }
        acc := acc + (t.name + "." + pk.constrainedColumns.value[0]) + ",";
      }
      k := k + 1;
    }
    o := Some(acc);
  }

  /** The entries of a schema's tables after `output`; `None` when one of them would raise. */
  method AppendSchemaPrimaryKeys(output: string, ts: seq<Table>) returns (o: Option<string>)
    ensures o.Some? <==> TablesOk(PrimaryKeys, ts, |ts|)
    ensures o.Some? ==> o.value == TablesKeysOnto(PrimaryKeys, output, ts, |ts|)
  {
    var acc := output;
    var j := 0;
    while j < |ts|
      invariant 0 <= j <= |ts|
      invariant TablesOk(PrimaryKeys, ts, j)
      invariant acc == TablesKeysOnto(PrimaryKeys, output, ts, j)
    {
      var next := AppendPrimaryKeys(acc, ts[j]);
      if next.None? {
        BadTable(PrimaryKeys, ts, j);
        return None;
      }
      TablesStep(PrimaryKeys, output, ts, j);
      acc := next.value;
      j := j + 1;
    }
    o := Some(acc);
  }

  /**
   * `find_foreign_keys`: "[" followed by an entry and a comma per foreign key
   * of every table of the selected schemas; the last character is then
   * replaced by "]". An empty column list raises `IndexError`.
   */
  method FindForeignKeys(catalog: seq<Schema>, dbName: Option<string>) returns (r: Result<string, Exception>)
    ensures r == ForeignKeysText(catalog, dbName)
  {
    var sel := SelectionFor(catalog, dbName);
    var output := "[";
    var i := 0;
    while i < |catalog|
      invariant 0 <= i <= |catalog|
      invariant SchemasOk(ForeignKeys, catalog, sel, i)
      invariant output == KeysOfSchemas(ForeignKeys, "[", catalog, sel, i)
    {
      if Keeps(sel, catalog[i].name) {
        var next := AppendSchemaForeignKeys(output, catalog[i].tables);
        if next.None? {
          BadSchema(ForeignKeys, catalog, sel, i);
          return Failure(IndexError);
        }
        output := next.value;
      }
      SchemasOkStep(ForeignKeys, catalog, sel, i);
      i := i + 1;
    }
    var o := DropLast(output) + "]";
    r := Success(if |o| > 2 then o else "[]");
  }

  /**
   * `find_primary_keys`: an entry and a comma per selected primary-key item,
   * with no opening bracket; the last character is then dropped and "]\n"
   * appended. An empty column list raises `IndexError`.
   */
  method FindPrimaryKeys(catalog: seq<Schema>, dbName: Option<string>) returns (r: Result<string, Exception>)
    ensures r == PrimaryKeysText(catalog, dbName)
  {
    var sel := SelectionFor(catalog, dbName);
    var output := "";
    var i := 0;
    while i < |catalog|
      invariant 0 <= i <= |catalog|
      invariant SchemasOk(PrimaryKeys, catalog, sel, i)
      invariant output == KeysOfSchemas(PrimaryKeys, "", catalog, sel, i)
    {
      if Keeps(sel, catalog[i].name) {
        var next := AppendSchemaPrimaryKeys(output, catalog[i].tables);
        if next.None? {
          BadSchema(PrimaryKeys, catalog, sel, i);
          return Failure(IndexError);
        }
        output := next.value;
      }
      SchemasOkStep(PrimaryKeys, catalog, sel, i);
      i := i + 1;
    }
    var o := DropLast(output) + "]\n";
    r := Success(if |o| > 2 then o else "[]");
  }

  /** An entry names its table and a column, so it is never empty. */
  lemma FirstEntryNonEmpty(kind: KeyKind, ss: seq<Schema>, sel: Selection)
    requires SchemasOk(kind, ss, sel, |ss|) && |KeyEntries(kind, ss, sel, |ss|)| > 0
    ensures |KeyEntries(kind, ss, sel, |ss|)[0]| > 0
  {
    var es := KeyEntries(kind, ss, sel, |ss|);
    KeyEntriesMembers(kind, ss, sel, |ss|, es[0]);
    var a, b, c :| 0 <= a < |ss| && Keeps(sel, ss[a].name) && 0 <= b < |ss[a].tables| && IsEntryOf(kind, ss[a].tables[b], c, es[0]);
  }

  /**
   * Trimming the last comma of a loop-built list, closing it and applying
   * the "[]" fallback: the entries joined by commas between `start` and
   * `close`, or "[]" when there are none.
   */
  lemma CloseListing(body: string, start: string, es: seq<string>, close: string)
    requires |start| <= 1 && |start| + |close| == 2
    requires |es| > 0 ==> |es[0]| > 0
    requires body == start + Terminated(es, ",")
    ensures var o := DropLast(body) + close;
      (if |o| > 2 then o else "[]") == (if |es| == 0 then "[]" else start + Join(es, ",") + close)
  {
    if |es| == 0 {
      assert start + Terminated(es, ",") == start;
    } else {
      DropLastConcat(start, Terminated(es, ","));
      TrimTerminated(es, ',');
      JoinLength(es, ",");
    }
  }

  lemma EmptyPrefix(x: string)
    ensures "" + x == x
  {
  }

  /** The closed listing of a catalog whose selected items all have their entries. */
  lemma ClosedKeys(kind: KeyKind, start: string, close: string, ss: seq<Schema>, sel: Selection)
    requires |start| <= 1 && |start| + |close| == 2
    requires SchemasOk(kind, ss, sel, |ss|)
    ensures var es := KeyEntries(kind, ss, sel, |ss|);
      var o := DropLast(KeysOfSchemas(kind, start, ss, sel, |ss|)) + close;
      (if |o| > 2 then o else "[]") == (if |es| == 0 then "[]" else start + Join(es, ",") + close)
  {
    var es := KeyEntries(kind, ss, sel, |ss|);
    KeysOfSchemasEntries(kind, start, ss, sel, |ss|);
    if |es| > 0 {
      FirstEntryNonEmpty(kind, ss, sel);
    }
    CloseListing(KeysOfSchemas(kind, start, ss, sel, |ss|), start, es, close);
  }

  /**
   * `find_foreign_keys` raises exactly when a selected foreign key has an
   * empty column list; otherwise it is "[" + the entries joined by commas +
   * "]", or "[]" when there are none.
   */
  lemma ForeignKeysListing(catalog: seq<Schema>, dbName: Option<string>)
    ensures var sel := SelectionFor(catalog, dbName); var r := ForeignKeysText(catalog, dbName);
      (r.Failure? <==> !SchemasOk(ForeignKeys, catalog, sel, |catalog|)) &&
      (r.Success? ==> var es := KeyEntries(ForeignKeys, catalog, sel, |catalog|);
        r.value == if |es| == 0 then "[]" else "[" + Join(es, ",") + "]")
  {
    var sel := SelectionFor(catalog, dbName);
    if SchemasOk(ForeignKeys, catalog, sel, |catalog|) {
      ClosedKeys(ForeignKeys, "[", "]", catalog, sel);
    }
  }

  /**
   * With no comma inside the entries, the brackets enclose the entries and
   * splitting what lies between them at commas gives the entries back.
   */
  lemma ForeignKeysRoundTrip(catalog: seq<Schema>, dbName: Option<string>)
    requires var sel := SelectionFor(catalog, dbName); SchemasOk(ForeignKeys, catalog, sel, |catalog|)
    requires var es := KeyEntries(ForeignKeys, catalog, SelectionFor(catalog, dbName), |catalog|);
      |es| > 0 && forall k :: 0 <= k < |es| ==> ',' !in es[k]
    ensures var t := ForeignKeysText(catalog, dbName).value;
      2 <= |t| && t[0] == '[' && t[|t| - 1] == ']' &&
      Split(t[1..|t| - 1], ",") == KeyEntries(ForeignKeys, catalog, SelectionFor(catalog, dbName), |catalog|)
  {
    var es := KeyEntries(ForeignKeys, catalog, SelectionFor(catalog, dbName), |catalog|);
    ForeignKeysListing(catalog, dbName);
    var t := ForeignKeysText(catalog, dbName).value;
    assert t[1..|t| - 1] == Join(es, ",");
    JoinSplit(es, ',');
  }

  /**
   * `find_primary_keys` raises exactly when a selected dictionary item has an
   * empty column list; otherwise it is the entries joined by commas followed
   * by "]\n" (with no opening bracket), or "[]" when there are none.
   */
  lemma PrimaryKeysListing(catalog: seq<Schema>, dbName: Option<string>)
    ensures var sel := SelectionFor(catalog, dbName); var r := PrimaryKeysText(catalog, dbName);
      (r.Failure? <==> !SchemasOk(PrimaryKeys, catalog, sel, |catalog|)) &&
      (r.Success? ==> var es := KeyEntries(PrimaryKeys, catalog, sel, |catalog|);
        r.value == if |es| == 0 then "[]" else Join(es, ",") + "]\n")
  {
    var sel := SelectionFor(catalog, dbName);
    if SchemasOk(PrimaryKeys, catalog, sel, |catalog|) {
      ClosedKeys(PrimaryKeys, "", "]\n", catalog, sel);
      EmptyPrefix(Join(KeyEntries(PrimaryKeys, catalog, sel, |catalog|), ","));
    }
  }

  /** Every primary-key item of the catalog is a plain key. */
  predicate AllPlain(catalog: seq<Schema>) {
    forall a, b, c :: 0 <= a < |catalog| && 0 <= b < |catalog[a].tables| && 0 <= c < |catalog[a].tables[b].pkItems| ==>
      catalog[a].tables[b].pkItems[c].PlainItem?
  }

  /**
   * Iterating over the dictionary `get_pk_constraint` returns yields its keys,
   * which are strings; so the dictionary test never holds and the listing is
   * always "[]".
   */
  lemma PrimaryKeysOfPlainItems(catalog: seq<Schema>, dbName: Option<string>)
    requires AllPlain(catalog)
    ensures PrimaryKeysText(catalog, dbName) == Success("[]")
  {
    var sel := SelectionFor(catalog, dbName);
    assert SchemasOk(PrimaryKeys, catalog, sel, |catalog|);
    var es := KeyEntries(PrimaryKeys, catalog, sel, |catalog|);
    if |es| > 0 {
      KeyEntriesMembers(PrimaryKeys, catalog, sel, |catalog|, es[0]);
    }
    PrimaryKeysListing(catalog, dbName);
  }

  // ------------------------------------------------------------ find_tables

  /** `acc` followed by the names of the first `j` tables. */
  function NamesOnto(acc: seq<string>, ts: seq<Table>, j: nat): seq<string>
    requires j <= |ts|
  {
    if j == 0 then acc else NamesOnto(acc, ts, j - 1) + [ts[j - 1].name]
  }

  /** The names of the tables of every schema among the first `i` named `dbName`. */
  function TableNames(ss: seq<Schema>, dbName: string, i: nat): seq<string>
    requires i <= |ss|
  {
    if i == 0 then []
    else
      var s := ss[i - 1];
      var prev := TableNames(ss, dbName, i - 1);
      if s.name == dbName then NamesOnto(prev, s.tables, |s.tables|) else prev
  }

  /** `find_tables`: the names of the tables of the schemas named `db_name`, in order. */
  method FindTables(catalog: seq<Schema>, dbName: string) returns (output: seq<string>)
    ensures output == TableNames(catalog, dbName, |catalog|)
  {
    output := [];
    for i := 0 to |catalog|
      invariant output == TableNames(catalog, dbName, i)
    {
      var schema := catalog[i];
      if schema.name == dbName {
        for j := 0 to |schema.tables|
          invariant output == NamesOnto(TableNames(catalog, dbName, i), schema.tables, j)
        {
          output := output + [schema.tables[j].name];
        }
      }
    }
  }

  /** Appending names keeps what was there and adds the names in table order. */
  lemma {:induction false} NamesOntoIndex(acc: seq<string>, ts: seq<Table>, j: nat)
    requires j <= |ts|
    ensures var r := NamesOnto(acc, ts, j);
      |r| == |acc| + j &&
      (forall b :: 0 <= b < |acc| ==> r[b] == acc[b]) &&
      (forall b :: 0 <= b < j ==> r[|acc| + b] == ts[b].name)
  {
    if j > 0 {
      NamesOntoIndex(acc, ts, j - 1);
    }
  }

  lemma {:induction false} TableNamesMembers(ss: seq<Schema>, dbName: string, i: nat, x: string)
    requires i <= |ss|
    ensures x in TableNames(ss, dbName, i) <==>
      exists a, b :: 0 <= a < i && ss[a].name == dbName && 0 <= b < |ss[a].tables| && ss[a].tables[b].name == x
  {
    if i > 0 {
      var s := ss[i - 1];
      var prev := TableNames(ss, dbName, i - 1);
      TableNamesMembers(ss, dbName, i - 1, x);
      if s.name == dbName {
        NamesOntoIndex(prev, s.tables, |s.tables|);
        var r := NamesOnto(prev, s.tables, |s.tables|);
        if x in r && x !in prev {
          var k :| 0 <= k < |r| && r[k] == x;
          assert s.tables[k - |prev|].name == x;
        }
        if exists b :: 0 <= b < |s.tables| && s.tables[b].name == x {
          var b :| 0 <= b < |s.tables| && s.tables[b].name == x;
          assert r[|prev| + b] == x;
        }
        if x in prev {
          var k :| 0 <= k < |prev| && prev[k] == x;
          assert r[k] == x;
        }
      }
    }
  }

  /**
   * A name is listed exactly when some schema named `db_name` holds a table
   * with that name.
   */
  lemma FindTablesMembers(catalog: seq<Schema>, dbName: string, x: string)
    ensures x in TableNames(catalog, dbName, |catalog|) <==>
      exists a, b :: 0 <= a < |catalog| && catalog[a].name == dbName && 0 <= b < |catalog[a].tables| && catalog[a].tables[b].name == x
  {
    TableNamesMembers(catalog, dbName, |catalog|, x);
  }

  /** Schemas not named `db_name` add nothing. */
  lemma {:induction false} TableNamesSkip(ss: seq<Schema>, dbName: string, lo: nat, i: nat)
    requires lo <= i <= |ss|
    requires forall a :: lo <= a < i ==> ss[a].name != dbName
    ensures TableNames(ss, dbName, i) == TableNames(ss, dbName, lo)
  {
    if lo < i {
      TableNamesSkip(ss, dbName, lo, i - 1);
    }
  }

  /**
   * With one schema named `db_name`, the list is the names of its tables, in
   * the inspector's order.
   */
  lemma FindTablesOfSchema(catalog: seq<Schema>, dbName: string, a: nat)
    requires a < |catalog| && catalog[a].name == dbName
    requires forall a' :: 0 <= a' < |catalog| && a' != a ==> catalog[a'].name != dbName
    ensures var r := TableNames(catalog, dbName, |catalog|); var ts := catalog[a].tables;
      |r| == |ts| && forall b :: 0 <= b < |ts| ==> r[b] == ts[b].name
  {
    var ts := catalog[a].tables;
    TableNamesSkip(catalog, dbName, 0, a);
    TableNamesSkip(catalog, dbName, a + 1, |catalog|);
    NamesOntoIndex(TableNames(catalog, dbName, a), ts, |ts|);
  }

  // ------------------------------------------------------------- get_schema

  /**
   * The innermost loop of `get_schema`: each column name followed by "|",
   * after `output`.
   */
  method AppendColumns(output: string, columns: seq<string>) returns (o: string)
    ensures o == output + Terminated(columns, "|")
  {
    o := output;
    var k := 0;
    while k < |columns|
      invariant 0 <= k <= |columns|
      invariant o == output + Terminated(columns[..k], "|")
    {
      assert columns[..k + 1] == columns[..k] + [columns[k]];
      TerminatedAppend(output, columns[..k], columns[k], "|");
      o := o + columns[k] + "|";
      k := k + 1;
    }
    assert columns[..k] == columns;
  }

  /** `acc` followed by the columns of the first `j` tables named `tableName`, each with a "|". */
  function ColumnsTextOnto(acc: string, ts: seq<Table>, tableName: string, j: nat): string
    requires j <= |ts|
  {
    if j == 0 then acc
    else
      var prev := ColumnsTextOnto(acc, ts, tableName, j - 1);
      if ts[j - 1].name == tableName then prev + Terminated(ts[j - 1].columns, "|") else prev
  }

  /** What `get_schema` returns after the first `i` schemas. */
  function SchemaText(ss: seq<Schema>, dbName: string, tableName: string, i: nat): string
    requires i <= |ss|
  {
    if i == 0 then ""
    else
      var s := ss[i - 1];
      var prev := SchemaText(ss, dbName, tableName, i - 1);
      if s.name == dbName then ColumnsTextOnto(prev, s.tables, tableName, |s.tables|) else prev
  }

  /** `get_schema`: the column names of the table `input_table_name` of schema `db_name`, each followed by "|". */
  method GetSchema(catalog: seq<Schema>, dbName: string, tableName: string) returns (output: string)
    ensures output == SchemaText(catalog, dbName, tableName, |catalog|)
  {
    output := "";
    for i := 0 to |catalog|
      invariant output == SchemaText(catalog, dbName, tableName, i)
    {
      var schema := catalog[i];
      if schema.name == dbName {
        for j := 0 to |schema.tables|
          invariant output == ColumnsTextOnto(SchemaText(catalog, dbName, tableName, i), schema.tables, tableName, j)
        {
          if schema.tables[j].name == tableName {
            output := AppendColumns(output, schema.tables[j].columns);
          }
        }
      }
    }
  }

  /** The columns `get_schema` lists, as a list: `accs` followed by those of the matching tables. */
  function MatchedColumnsOnto(accs: seq<string>, ts: seq<Table>, tableName: string, j: nat): seq<string>
    requires j <= |ts|
  {
    if j == 0 then accs
    else
      var prev := MatchedColumnsOnto(accs, ts, tableName, j - 1);
      if ts[j - 1].name == tableName then prev + ts[j - 1].columns else prev
  }

  function MatchedColumns(ss: seq<Schema>, dbName: string, tableName: string, i: nat): seq<string>
    requires i <= |ss|
  {
    if i == 0 then []
    else
      var s := ss[i - 1];
      var prev := MatchedColumns(ss, dbName, tableName, i - 1);
      if s.name == dbName then MatchedColumnsOnto(prev, s.tables, tableName, |s.tables|) else prev
  }

  lemma {:induction false} ColumnsTextOntoColumns(accs: seq<string>, ts: seq<Table>, tableName: string, j: nat)
    requires j <= |ts|
    ensures ColumnsTextOnto(Terminated(accs, "|"), ts, tableName, j) == Terminated(MatchedColumnsOnto(accs, ts, tableName, j), "|")
  {
    if j > 0 {
      ColumnsTextOntoColumns(accs, ts, tableName, j - 1);
      if ts[j - 1].name == tableName {
        TerminatedConcat(MatchedColumnsOnto(accs, ts, tableName, j - 1), ts[j - 1].columns, "|");
      }
    }
  }

  /** The text is the matched columns, each followed by "|". */
  lemma {:induction false} SchemaTextColumns(ss: seq<Schema>, dbName: string, tableName: string, i: nat)
    requires i <= |ss|
    ensures SchemaText(ss, dbName, tableName, i) == Terminated(MatchedColumns(ss, dbName, tableName, i), "|")
  {
    if i > 0 {
      var s := ss[i - 1];
      SchemaTextColumns(ss, dbName, tableName, i - 1);
      if s.name == dbName {
        ColumnsTextOntoColumns(MatchedColumns(ss, dbName, tableName, i - 1), s.tables, tableName, |s.tables|);
      }
    }
  }

  /**
   * When no column name holds "|", splitting `get_schema`'s text at "|"
   * gives the matched columns back, followed by the empty piece after the
   * last "|".
   */
  lemma GetSchemaSplit(catalog: seq<Schema>, dbName: string, tableName: string)
    requires var cs := MatchedColumns(catalog, dbName, tableName, |catalog|);
      forall k :: 0 <= k < |cs| ==> '|' !in cs[k]
    ensures Split(SchemaText(catalog, dbName, tableName, |catalog|), "|") == MatchedColumns(catalog, dbName, tableName, |catalog|) + [""]
  {
    var cs := MatchedColumns(catalog, dbName, tableName, |catalog|);
    SchemaTextColumns(catalog, dbName, tableName, |catalog|);
    if |cs| == 0 {
      assert cs + [""] == [""];
      assert Terminated(cs, "|") == "";
    } else {
      TerminatedIsJoin(cs, "|");
      JoinSnoc(cs, "", "|");
      assert Join(cs, "|") + "|" + "" == Join(cs, "|") + "|";
    }
    JoinSplit(cs + [""], '|');
  }
}
