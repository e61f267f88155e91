/** When opening a database file succeeds, and what it leaves on disk. */
module Schema {
  import opened Database

  datatype Verdict = Existing | Bad | Created

  /** dbColumnName[name]: an unknown name reads as the empty string. */
  function TypeOf(name: string): string {
    if name == "execName" || name == "args" || name == "workDir" then "TEXT"
    else if name == "ID" || name == "exitCode" || name == "isSuccess" then "INT"
    else ""
  }

  /** The columns of a new task table as PRAGMA table_info reports them. */
  const TASK_COLUMNS := [Column("execName", "TEXT"), Column("args", "TEXT"), Column("workDir", "TEXT"),
                         Column("ID", "INT"), Column("exitCode", "INT"), Column("isSuccess", "INT")]

  const ID_COLUMNS := [Column("ID", "INT")]

  predicate ValidTask(columns: seq<Column>) {
    |columns| == 6 && forall i :: 0 <= i < |columns| ==> TypeOf(columns[i].name) == columns[i].decl
  }

  predicate ValidId(columns: seq<Column>, ids: seq<int>) {
    |columns| == 1 && columns[0] == Column("ID", "INT") && |ids| == 1
  }

  function TaskVerdict(catalog: map<TableName, seq<Column>>, table: TableName): Verdict {
    if table !in catalog then Created
    else if ValidTask(catalog[table]) then Existing
    else Bad
  }

  function IdVerdict(catalog: map<TableName, seq<Column>>, ids: seq<int>): Verdict {
    if IdTable !in catalog then Created
    else if ValidId(catalog[IdTable], ids) then Existing
    else Bad
  }

  /** The table exists and is as the queue needs it. */
  predicate Good(catalog: map<TableName, seq<Column>>, ids: seq<int>, table: TableName) {
    table in catalog && if table.IdTable? then ValidId(catalog[table], ids) else ValidTask(catalog[table])
  }

  predicate AllGood(catalog: map<TableName, seq<Column>>, ids: seq<int>) {
    Good(catalog, ids, PendingTable) && Good(catalog, ids, DoneTable) && Good(catalog, ids, IdTable)
  }

  datatype Opened = Opened(ok: bool, catalog: map<TableName, seq<Column>>, ids: seq<int>)

  function Make(catalog: map<TableName, seq<Column>>, table: TableName, columns: seq<Column>):
      map<TableName, seq<Column>> {
    if table in catalog then catalog else catalog[table := columns]
  }

  /** connectToDB when no call into SQLite fails. */
  function Open(catalog: map<TableName, seq<Column>>, ids: seq<int>): Opened {
    var rcPending := TaskVerdict(catalog, PendingTable);
    if rcPending.Bad? then Opened(false, catalog, ids)
    else
      var c1 := Make(catalog, PendingTable, TASK_COLUMNS);
      var rcDone := TaskVerdict(c1, DoneTable);
      var c2 := Make(c1, DoneTable, TASK_COLUMNS);
      var rcID := IdVerdict(c2, ids);
      var c3 := Make(c2, IdTable, ID_COLUMNS);
      Opened(rcPending == rcDone == rcID, c3, if rcID.Created? then [0] else ids)
  }

  /** Opening succeeds exactly if all three tables are there and good, or none is there. */
  lemma OpensIff(catalog: map<TableName, seq<Column>>, ids: seq<int>)
    ensures Open(catalog, ids).ok <==>
      (AllGood(catalog, ids)
       || (PendingTable !in catalog && DoneTable !in catalog && IdTable !in catalog))
    ensures Open(catalog, ids).ok ==> AllGood(Open(catalog, ids).catalog, Open(catalog, ids).ids)
  {
    NewTablesAreGood();
  }

  lemma NewTablesAreGood()
    ensures ValidTask(TASK_COLUMNS) && ValidId(ID_COLUMNS, [0])
  {
  }

  /** If every table that is there is good, then after one call, even one that is
      refused, all three are there, and calling again succeeds and changes nothing. */
  lemma SecondOpenSucceeds(catalog: map<TableName, seq<Column>>, ids: seq<int>)
    requires forall t :: t in catalog ==> Good(catalog, ids, t)
    ensures var first := Open(catalog, ids);
      && AllGood(first.catalog, first.ids)
      && Open(first.catalog, first.ids) == first.(ok := true)
  {
    NewTablesAreGood();
  }

  // ---- What passing the test of the columns means -------------------------------

  predicate Distinct(columns: seq<Column>) {
    forall i, j :: 0 <= i < j < |columns| ==> columns[i].name != columns[j].name
  }

  function Set(columns: seq<Column>): set<Column> {
    set c | c in columns
  }

  /** All columns have a type. */
  predicate Typed(columns: seq<Column>) {
    forall i :: 0 <= i < |columns| ==> columns[i].decl != ""
  }

  lemma {:induction false} DistinctCount(columns: seq<Column>)
    requires Distinct(columns)
    ensures |Set(columns)| == |columns|
  {
    if |columns| > 0 {
      var n := |columns| - 1;
      DistinctCount(columns[..n]);
      assert columns == columns[..n] + [columns[n]];
      assert Set(columns) == Set(columns[..n]) + {columns[n]};
    }
  }

  lemma SubsetOfSameSize(a: set<Column>, b: set<Column>)
    requires a <= b && |a| == |b|
    ensures a == b
  {
    assert |b - a| == |b| - |a|;
  }

  /** A table whose columns pass the test has the columns of a task table, in whatever
      order, if and only if none of its columns is without a type. */
  lemma TaskColumnsIff(columns: seq<Column>)
    requires ValidTask(columns) && Distinct(columns)
    ensures Set(columns) == Set(TASK_COLUMNS) <==> Typed(columns)
  {
    if Typed(columns) {
      forall c | c in Set(columns) ensures c in Set(TASK_COLUMNS) {
        var i :| 0 <= i < |columns| && columns[i] == c;
        KnownColumn(c);
      }
      DistinctCount(columns);
      DistinctCount(TASK_COLUMNS);
      SubsetOfSameSize(Set(columns), Set(TASK_COLUMNS));
    } else {
      var i :| 0 <= i < |columns| && columns[i].decl == "";
      assert columns[i] in Set(columns);
      assert forall c :: c in Set(TASK_COLUMNS) ==> c.decl != "";
    }
  }

  lemma KnownColumn(c: Column)
    requires TypeOf(c.name) == c.decl && c.decl != ""
    ensures c in TASK_COLUMNS
  {
    var i := if c.name == "execName" then 0 else if c.name == "args" then 1 else if c.name == "workDir" then 2
             else if c.name == "ID" then 3 else if c.name == "exitCode" then 4 else 5;
    assert TASK_COLUMNS[i] == c;
  }

  /** Six columns without types. */
  const BARE := [Column("a", ""), Column("b", ""), Column("c", ""), Column("d", ""), Column("e", ""),
                 Column("f", "")]

  /** The columns of a task table, with ID and execName exchanged. */
  const EXCHANGED := [Column("ID", "INT"), Column("args", "TEXT"), Column("workDir", "TEXT"),
                      Column("execName", "TEXT"), Column("exitCode", "INT"), Column("isSuccess", "INT")]

  lemma ShortIsUnknown(name: string)
    requires |name| == 1
    ensures TypeOf(name) == ""
  {
  }

  lemma BarePasses()
    ensures ValidTask(BARE) && Set(BARE) !! Set(TASK_COLUMNS)
  {
    forall i | 0 <= i < |BARE| ensures TypeOf(BARE[i].name) == BARE[i].decl {
      ShortIsUnknown(BARE[i].name);
    }
    assert forall c :: c in Set(BARE) ==> |c.decl| == 0;
    assert forall c :: c in Set(TASK_COLUMNS) ==> |c.decl| > 0;
  }

  lemma BareIsDistinct()
    ensures Distinct(BARE)
  {
    forall i, j | 0 <= i < j < |BARE| ensures BARE[i].name != BARE[j].name {
      assert BARE[i].name[0] != BARE[j].name[0];
    }
  }

  lemma ExchangedPasses()
    ensures ValidTask(EXCHANGED) && Set(EXCHANGED) == Set(TASK_COLUMNS) && EXCHANGED != TASK_COLUMNS
  {
    assert EXCHANGED[0] == TASK_COLUMNS[3] && EXCHANGED[3] == TASK_COLUMNS[0];
    assert |EXCHANGED[0].name| == 2 && |TASK_COLUMNS[0].name| == 8;
    assert forall c :: c in EXCHANGED <==> c in TASK_COLUMNS;
  }

  /** A file is opened although its task tables have none of the columns, or have
      them in an order other than the one by which rows are written and read. */
  lemma WrongTablesOpen(columns: seq<Column>, id: int)
    requires columns == BARE || columns == EXCHANGED
    ensures Open(map[PendingTable := columns, DoneTable := columns, IdTable := ID_COLUMNS], [id]).ok
    ensures columns == BARE ==> Set(columns) !! Set(TASK_COLUMNS)
    ensures columns == EXCHANGED ==> Set(columns) == Set(TASK_COLUMNS) && columns != TASK_COLUMNS
  {
    BarePasses();
    ExchangedPasses();
    var catalog := map[PendingTable := columns, DoneTable := columns, IdTable := ID_COLUMNS];
    assert ValidId(ID_COLUMNS, [id]);
    assert AllGood(catalog, [id]);
    OpensIff(catalog, [id]);
  }
}
