/** What running a migration script does to a database: it reaches the other schema, review notes aside, exactly when its
    key clauses are ones a database takes. */
module MigrationEffect {
  import opened ByteStrings
  import opened Migration
  import opened Options

  /** Nobody may declare a second primary key, create what exists or drop what does not. */
  predicate Accepts(s: Schema, x: Statement)
  {
    match x
    case CreateTable(t, cols) =>
      t !in s
      && (forall i, j :: 0 <= i < j < |cols| ==> cols[i].name != cols[j].name)
      && (forall i, j :: 0 <= i < j < |cols| ==> !(cols[i].isPK && cols[j].isPK))
    case DropTable(t) => t in s
    case AddColumn(t, c) => t in s && c.name !in s[t] && (c.isPK ==> forall m :: m in s[t] ==> !s[t][m].isPK)
    case DropColumn(t, n) => t in s && n in s[t]
    case ReviewNote(_, _) => true
  }

  function Exec(s: Schema, x: Statement): Schema
    requires Accepts(s, x)
  {
    match x
    case CreateTable(t, cols) => s[t := ColumnsByName(cols)]
    case DropTable(t) => s - {t}
    case AddColumn(t, c) => s[t := s[t][c.name := c]]
    case DropColumn(t, n) => s[t := s[t] - {n}]
    case ReviewNote(_, _) => s
  }

  /** None: some statement is refused. */
  function Run(s: Schema, xs: seq<Statement>): Option<Schema>
  {
    if xs == [] then Some(s)
    else
      match Run(s, xs[..|xs| - 1])
      case None => None
      case Some(m) => if Accepts(m, xs[|xs| - 1]) then Some(Exec(m, xs[|xs| - 1])) else None
  }

  /** A database after a script; where DDL is transactional a refused script leaves no trace. */
  ghost predicate Outcome(s: Schema, script: Script, now: Schema, ok: bool)
  {
    match script
    case NoChanges => ok && now == s
    case Script(transactional, xs) =>
      ok == Run(s, xs).Some? && (ok ==> now == Run(s, xs).value) && (!ok && transactional ==> now == s)
  }

  lemma {:induction false} RunConcat(s: Schema, x: seq<Statement>, y: seq<Statement>)
    ensures Run(s, x + y) == match Run(s, x) case None => None case Some(m) => Run(m, y)
    decreases |y|
  {
    if y == [] {
      assert x + y == x;
    } else {
      var n := |y| - 1;
      assert (x + y)[..|x + y| - 1] == x + y[..n];
      RunConcat(s, x, y[..n]);
    }
  }

  lemma RunOne(s: Schema, x: Statement)
    ensures Run(s, [x]) == if Accepts(s, x) then Some(Exec(s, x)) else None
  {
  }

  // ---- One table ----

  /** The columns of a table when those in `done` have been dealt with: dropped, added, or left as they were. */
  function Part(b: Columns, a: Columns, done: set<Name>): Columns
  {
    map m | m in b.Keys + a.Keys && (if m in done then m in a else m in b) :: if m in b then b[m] else a[m]
  }

  function NamesBelow(b: Columns, a: Columns, n: Name): set<Name>
  {
    set m | m in b.Keys + a.Keys && Less(m, n)
  }

  /** A new key column may be added: at its turn the table has no key column. */
  predicate FitsAt(b: Columns, a: Columns, n: Name)
  {
    n in a && n !in b && a[n].isPK ==> var at := Part(b, a, NamesBelow(b, a, n)); forall m :: m in at ==> !at[m].isPK
  }

  function DoneNames(cols: seq<ColumnDiff>): set<Name>
  {
    set c | c in cols :: c.name
  }

  lemma DoneAt(b: Columns, a: Columns, cols: seq<ColumnDiff>, j: nat)
    requires IsColumnDiff(b, a, cols) && j < |cols|
    ensures DoneNames(cols[..j]) == NamesBelow(b, a, cols[j].name) && cols[j].name !in DoneNames(cols[..j])
    ensures cols[j] == DiffColumn(b, a, cols[j].name) && (cols[j].name in b || cols[j].name in a)
  {
    var names := seq(|cols|, i requires 0 <= i < |cols| => cols[i].name);
    assert Ascending(names);
    assert cols[j] in cols;
    forall k | 0 <= k < |cols| ensures Less(cols[k].name, cols[j].name) <==> k < j {
      if k < j {
        assert Less(names[k], names[j]);
      } else {
        LessIrreflexive(names[j]);
        if k > j {
          assert Less(names[j], names[k]);
          LessAsymmetric(names[j], names[k]);
        }
      }
    }
    hide Less;
    hide Ascending;
    forall m ensures m in DoneNames(cols[..j]) <==> m in NamesBelow(b, a, cols[j].name) {
      if m in NamesBelow(b, a, cols[j].name) {
        var k :| 0 <= k < |cols| && cols[k] == DiffColumn(b, a, m);
        assert cols[k] in cols[..j];
      }
      if m in DoneNames(cols[..j]) {
        var k :| 0 <= k < j && cols[k].name == m;
        assert cols[k] in cols;
      }
    }
  }

  lemma DoneNext(cols: seq<ColumnDiff>, j: nat)
    requires j < |cols|
    ensures DoneNames(cols[..j + 1]) == DoneNames(cols[..j]) + {cols[j].name}
  {
  }

  /** One column's statement takes the table one column further, if its key clause fits. */
  lemma ColumnRuns(s: Schema, t: Name, b: Columns, a: Columns, done: set<Name>, n: Name)
    requires t in s && s[t] == Part(b, a, done) && n !in done && (n in b || n in a)
    requires done == NamesBelow(b, a, n) && Named(a)
    ensures Run(s, ColumnStatement(t, DiffColumn(b, a, n))) == if FitsAt(b, a, n) then Some(s[t := Part(b, a, done + {n})]) else None
  {
    hide NamesBelow;
    hide Less;
    var c := DiffColumn(b, a, n);
    if n in b && n !in a {
      RunOne(s, DropColumn(t, n));
      assert Part(b, a, done + {n}) == Part(b, a, done) - {n};
    } else if n !in b {
      RunOne(s, AddColumn(t, a[n]));
      assert Part(b, a, done + {n}) == Part(b, a, done)[n := a[n]];
    } else {
      RunOne(s, ReviewNote(t, n));
      assert Part(b, a, done + {n}) == Part(b, a, done);
      assert s[t := s[t]] == s;
    }
  }

  /** The first j columns' statements. */
  ghost predicate FitsBelow(b: Columns, a: Columns, cols: seq<ColumnDiff>, j: nat)
    requires j <= |cols|
  {
    forall k :: 0 <= k < j ==> FitsAt(b, a, cols[k].name)
  }

  lemma {:induction false} ColumnsRun(s: Schema, t: Name, b: Columns, a: Columns, cols: seq<ColumnDiff>, j: nat)
    requires t in s && s[t] == b && IsColumnDiff(b, a, cols) && j <= |cols| && Named(a)
    ensures Run(s, ColumnStatements(t, cols[..j])) == if FitsBelow(b, a, cols, j) then Some(s[t := Part(b, a, DoneNames(cols[..j]))]) else None
    decreases j
  {
    hide IsColumnDiff;
    hide FitsAt;
    hide FitsBelow;
    hide ColumnStatements;
    hide NamesBelow;
    if j == 0 {
      NoColumnStatements(t);
      assert cols[..0] == [] && DoneNames(cols[..0]) == {};
      assert Part(b, a, {}) == b;
      assert s[t := b] == s;
      FitsNothing(b, a, cols);
    } else {
      hide *;
      var i := j - 1;
      ColumnsRun(s, t, b, a, cols, i);
      ColumnStatementsNext(t, cols, i);
      RunConcat(s, ColumnStatements(t, cols[..i]), ColumnStatement(t, cols[i]));
      DoneAt(b, a, cols, i);
      DoneNext(cols, i);
      FitsNext(b, a, cols, i);
      if FitsBelow(b, a, cols, i) {
        ColumnRuns(s[t := Part(b, a, DoneNames(cols[..i]))], t, b, a, DoneNames(cols[..i]), cols[i].name);
        PutAgain(s, t, Part(b, a, DoneNames(cols[..i])), Part(b, a, DoneNames(cols[..j])));
      }
    }
  }

  lemma FitsNothing(b: Columns, a: Columns, cols: seq<ColumnDiff>)
    ensures FitsBelow(b, a, cols, 0)
  {
  }

  lemma FitsNext(b: Columns, a: Columns, cols: seq<ColumnDiff>, i: nat)
    requires i < |cols|
    ensures FitsBelow(b, a, cols, i + 1) <==> FitsBelow(b, a, cols, i) && FitsAt(b, a, cols[i].name)
  {
  }

  lemma PutAgain(s: Schema, t: Name, x: Columns, y: Columns)
    ensures s[t := x][t := y] == s[t := y]
  {
  }

  // ---- The whole database ----

  /** What the script makes of a table that stays: the after columns, but those to review as they were. */
  function Merged(b: Columns, a: Columns): Columns
  {
    map m | m in a :: if m in b then b[m] else a[m]
  }

  /** What the script is to make of the database. */
  function Target(before: Schema, after: Schema): Schema
  {
    map t | t in after :: if t in before then Merged(before[t], after[t]) else after[t]
  }

  /** The database when the tables in `done` have been dealt with. */
  function PartSchema(before: Schema, after: Schema, done: set<Name>): Schema
  {
    map t | t in before.Keys + after.Keys && (if t in done then t in after else t in before) ::
      if t in done then Target(before, after)[t] else before[t]
  }

  predicate OneKeyAtMost(cols: Columns)
  {
    forall m, n :: m in cols && n in cols && cols[m].isPK && cols[n].isPK ==> m == n
  }

  /** The key clauses a table's statements carry are ones a database takes: a new table has at most one key column, and
      where a key column is added no other is there at its turn. */
  predicate TableFits(before: Schema, after: Schema, t: Name)
  {
    t in after ==>
      if t in before then forall n :: n in after[t] ==> FitsAt(before[t], after[t], n) else OneKeyAtMost(after[t])
  }

  predicate KeysFit(before: Schema, after: Schema)
  {
    forall t :: t in after ==> TableFits(before, after, t)
  }

  lemma PartAll(b: Columns, a: Columns, cols: seq<ColumnDiff>)
    requires IsColumnDiff(b, a, cols)
    ensures Part(b, a, DoneNames(cols)) == Merged(b, a)
    ensures FitsBelow(b, a, cols, |cols|) <==> forall n :: n in a ==> FitsAt(b, a, n)
  {
    hide Less;
    hide Ascending;
    forall n | n in b || n in a ensures n in DoneNames(cols) {
      assert DiffColumn(b, a, n) in cols;
      assert DiffColumn(b, a, n).name == n;
    }
    assert Part(b, a, DoneNames(cols)) == Merged(b, a);
    hide Part;
    if FitsBelow(b, a, cols, |cols|) {
      forall n | n in a ensures FitsAt(b, a, n) {
        assert DiffColumn(b, a, n) in cols;
        var k :| 0 <= k < |cols| && cols[k] == DiffColumn(b, a, n);
        assert FitsAt(b, a, cols[k].name);
      }
    }
    if forall n :: n in a ==> FitsAt(b, a, n) {
      forall k | 0 <= k < |cols| ensures FitsAt(b, a, cols[k].name) {
        assert cols[k] in cols;
      }
    }
  }

  lemma ModifiedRuns(s: Schema, d: TableDiff, b: Columns, a: Columns)
    requires d.table in s && s[d.table] == b && IsColumnDiff(b, a, d.columns) && Named(a)
    ensures Run(s, ColumnStatements(d.table, d.columns)) ==
            if forall n :: n in a ==> FitsAt(b, a, n) then Some(s[d.table := Merged(b, a)]) else None
  {
    hide IsColumnDiff;
    hide FitsAt;
    hide Run;
    ColumnsRun(s, d.table, b, a, d.columns, |d.columns|);
    assert d.columns[..|d.columns|] == d.columns;
    PartAll(b, a, d.columns);
  }

  /** With nothing before, the columns of a new table are the after columns, each once. */
  lemma {:induction false} NewColumnsAre(a: Columns, cols: seq<ColumnDiff>, j: nat)
    requires IsColumnDiff(map[], a, cols) && j <= |cols| && Named(a)
    ensures |NewColumns(cols[..j])| == j && forall k :: 0 <= k < j ==> cols[k].name in a && NewColumns(cols[..j])[k] == a[cols[k].name]
    decreases j
  {
    hide Less;
    if j > 0 {
      var i := j - 1;
      NewColumnsAre(a, cols, i);
      assert cols[..j][..i] == cols[..i];
      assert cols[i] in cols;
    }
  }

  /** The definitions list the table's columns, each once. */
  ghost predicate ListsColumns(defs: seq<Column>, a: Columns)
  {
    && (forall k :: 0 <= k < |defs| ==> defs[k].name in a && defs[k] == a[defs[k].name])
    && (forall i, j :: 0 <= i < j < |defs| ==> defs[i].name != defs[j].name)
    && (forall n :: n in a ==> a[n] in defs)
  }

  lemma NamesDistinct(b: Columns, a: Columns, cols: seq<ColumnDiff>)
    requires IsColumnDiff(b, a, cols)
    ensures forall i, j :: 0 <= i < j < |cols| ==> cols[i].name != cols[j].name
  {
    var names := seq(|cols|, i requires 0 <= i < |cols| => cols[i].name);
    assert Ascending(names);
    forall i, j | 0 <= i < j < |cols| ensures cols[i].name != cols[j].name {
      assert Less(names[i], names[j]);
      LessIrreflexive(names[i]);
    }
  }

  lemma DiffOf(b: Columns, a: Columns, cols: seq<ColumnDiff>, n: Name) returns (k: nat)
    requires IsColumnDiff(b, a, cols) && n in a
    ensures k < |cols| && cols[k].name == n
  {
    hide Less;
    hide Ascending;
    assert DiffColumn(b, a, n) in cols;
    k :| 0 <= k < |cols| && cols[k] == DiffColumn(b, a, n);
  }

  lemma CreatedLists(a: Columns, cols: seq<ColumnDiff>)
    requires IsColumnDiff(map[], a, cols) && Named(a)
    ensures ListsColumns(NewColumns(cols), a)
  {
    hide IsColumnDiff;
    var defs := NewColumns(cols);
    NewColumnsAre(a, cols, |cols|);
    assert cols[..|cols|] == cols;
    NamesDistinct(map[], a, cols);
    hide NewColumns;
    forall n | n in a ensures a[n] in defs {
      var k := DiffOf(map[], a, cols, n);
      assert defs[k] in defs;
    }
  }

  lemma ListedTable(defs: seq<Column>, a: Columns)
    requires ListsColumns(defs, a) && Named(a)
    ensures ColumnsByName(defs) == a
  {
  }

  lemma ListedKeys(defs: seq<Column>, a: Columns)
    requires ListsColumns(defs, a) && Named(a)
    ensures (forall i, j :: 0 <= i < j < |defs| ==> !(defs[i].isPK && defs[j].isPK)) <==> OneKeyAtMost(a)
  {
  }

  lemma CreatedRuns(s: Schema, d: TableDiff, a: Columns)
    requires d.table !in s && IsColumnDiff(map[], a, d.columns) && Named(a)
    ensures Run(s, [CreateTable(d.table, NewColumns(d.columns))]) == if OneKeyAtMost(a) then Some(s[d.table := a]) else None
  {
    var defs := NewColumns(d.columns);
    CreatedLists(a, d.columns);
    ListedTable(defs, a);
    ListedKeys(defs, a);
    RunOne(s, CreateTable(d.table, defs));
    assert forall i, j :: 0 <= i < j < |defs| ==> defs[i].name != defs[j].name;
    hide IsColumnDiff;
    hide NewColumns;
    hide OneKeyAtMost;
    hide Run;
    hide ColumnsByName;
  }

  predicate NamedSchema(s: Schema)
  {
    forall t :: t in s ==> Named(s[t])
  }

  /** One table's statements take the database one table further, if its key clauses fit. */
  lemma TableRuns(before: Schema, after: Schema, done: set<Name>, d: TableDiff)
    requires NamedSchema(after) && IsTableDiff(before, after, d) && d.table !in done
    ensures Run(PartSchema(before, after, done), TableStatements(d)) ==
            if TableFits(before, after, d.table) then Some(PartSchema(before, after, done + {d.table})) else None
  {
    hide IsColumnDiff;
    hide FitsAt;
    hide OneKeyAtMost;
    hide Merged;
    hide Named;
    hide NewColumns;
    hide ColumnStatements;
    var s, t := PartSchema(before, after, done), d.table;
    PartStep(before, after, done, t);
    assert t in after ==> Named(after[t]);
    if t !in after {
      RunOne(s, DropTable(t));
    } else if t !in before {
      CreatedRuns(s, d, after[t]);
    } else {
      ModifiedRuns(s, d, before[t], after[t]);
      if !AnyChanged(d.columns) {
        NothingToRun(before[t], after[t], d.columns);
        assert s[t := s[t]] == s;
      }
    }
  }

  lemma PartStep(before: Schema, after: Schema, done: set<Name>, t: Name)
    requires t !in done && (t in before || t in after)
    ensures var s := PartSchema(before, after, done);
      && (t in s <==> t in before) && (t in before ==> s[t] == before[t])
      && PartSchema(before, after, done + {t}) == if t in after then s[t := Target(before, after)[t]] else s - {t}
  {
  }

  /** A table without changed columns needs no statement: it is as it is to be. */
  lemma NothingToRun(b: Columns, a: Columns, cols: seq<ColumnDiff>)
    requires IsColumnDiff(b, a, cols) && !AnyChanged(cols)
    ensures Merged(b, a) == b && forall n :: n in a ==> FitsAt(b, a, n)
  {
  }

  function TablesOf(diffs: seq<TableDiff>): set<Name>
  {
    set d | d in diffs :: d.table
  }

  /** What running the statements of the first j tables comes to. */
  function AfterTables(before: Schema, after: Schema, diffs: seq<TableDiff>, j: nat): Option<Schema>
    requires j <= |diffs|
  {
    if forall k :: 0 <= k < j ==> TableFits(before, after, diffs[k].table)
    then Some(PartSchema(before, after, TablesOf(diffs[..j]))) else None
  }

  lemma {:induction false} TablesRun(before: Schema, after: Schema, diffs: seq<TableDiff>, j: nat)
    requires NamedSchema(after) && IsDiff(before, after, diffs) && j <= |diffs|
    ensures Run(before, Statements(diffs[..j])) == AfterTables(before, after, diffs, j)
    decreases j
  {
    if j == 0 {
      NoTablesRun(before, after, diffs);
    } else {
      hide *;
      TablesRun(before, after, diffs, j - 1);
      NextTableRuns(before, after, diffs, j - 1);
    }
  }

  lemma NoTablesRun(before: Schema, after: Schema, diffs: seq<TableDiff>)
    ensures Run(before, Statements(diffs[..0])) == AfterTables(before, after, diffs, 0)
  {
    hide Target;
    assert diffs[..0] == [] && TablesOf(diffs[..0]) == {};
    assert PartSchema(before, after, {}) == before;
  }

  lemma NextTableRuns(before: Schema, after: Schema, diffs: seq<TableDiff>, i: nat)
    requires NamedSchema(after) && IsDiff(before, after, diffs) && i < |diffs|
    requires Run(before, Statements(diffs[..i])) == AfterTables(before, after, diffs, i)
    ensures Run(before, Statements(diffs[..i + 1])) == AfterTables(before, after, diffs, i + 1)
  {
    StatementsNext(diffs, i);
    RunConcat(before, Statements(diffs[..i]), TableStatements(diffs[i]));
    TablesNextDone(before, after, diffs, i);
    TableRuns(before, after, TablesOf(diffs[..i]), diffs[i]);
    NextTableFits(before, after, diffs, i);
    hide *;
  }

  lemma NextTableFits(before: Schema, after: Schema, diffs: seq<TableDiff>, i: nat)
    requires i < |diffs|
    ensures AfterTables(before, after, diffs, i + 1) ==
      if AfterTables(before, after, diffs, i).Some? && TableFits(before, after, diffs[i].table)
      then Some(PartSchema(before, after, TablesOf(diffs[..i + 1]))) else None
    ensures AfterTables(before, after, diffs, i).Some? ==>
      AfterTables(before, after, diffs, i).value == PartSchema(before, after, TablesOf(diffs[..i]))
  {
    hide TableFits;
    hide PartSchema;
    hide TablesOf;
  }

  lemma TablesNextDone(before: Schema, after: Schema, diffs: seq<TableDiff>, i: nat)
    requires IsDiff(before, after, diffs) && i < |diffs|
    ensures TablesOf(diffs[..i + 1]) == TablesOf(diffs[..i]) + {diffs[i].table} && diffs[i].table !in TablesOf(diffs[..i])
    ensures IsTableDiff(before, after, diffs[i])
  {
  }

  /** The script of a diff runs through exactly if its key clauses fit, and then it makes the target. */
  lemma MigrationReachesTarget(before: Schema, after: Schema, diffs: seq<TableDiff>)
    requires NamedSchema(after) && IsDiff(before, after, diffs)
    ensures Run(before, Statements(diffs)) == if KeysFit(before, after) then Some(Target(before, after)) else None
  {
    TablesRun(before, after, diffs, |diffs|);
    assert diffs[..|diffs|] == diffs;
    AllTablesAfter(before, after, diffs);
    AllTablesDone(before, after, diffs);
    AllTablesFit(before, after, diffs);
    hide *;
  }

  lemma AllTablesAfter(before: Schema, after: Schema, diffs: seq<TableDiff>)
    ensures AfterTables(before, after, diffs, |diffs|) ==
      if forall k :: 0 <= k < |diffs| ==> TableFits(before, after, diffs[k].table) then Some(PartSchema(before, after, TablesOf(diffs))) else None
  {
    assert diffs[..|diffs|] == diffs;
  }

  lemma AllTablesDone(before: Schema, after: Schema, diffs: seq<TableDiff>)
    requires IsDiff(before, after, diffs)
    ensures PartSchema(before, after, TablesOf(diffs)) == Target(before, after)
  {
  }

  lemma AllTablesFit(before: Schema, after: Schema, diffs: seq<TableDiff>)
    requires IsDiff(before, after, diffs)
    ensures KeysFit(before, after) <==> forall k :: 0 <= k < |diffs| ==> TableFits(before, after, diffs[k].table)
  {
  }

  /** A column of the target is the after column, unless it is one the script leaves for review. */
  lemma TargetIsAfter(before: Schema, after: Schema, t: Name, n: Name)
    requires NamedSchema(before) && NamedSchema(after) && t in after && n in after[t]
    ensures t in Target(before, after) && n in Target(before, after)[t]
    ensures Target(before, after)[t][n] == after[t][n] <==>
              !(t in before && n in before[t] && DiffColumn(before[t], after[t], n).ColumnModified?)
    ensures Target(before, after).Keys == after.Keys && Target(before, after)[t].Keys == after[t].Keys
  {
  }

  /** The script is the no-change script exactly if HasChanges is false, which is exactly if nothing differs. */
  lemma NoScriptIffNoChange(before: Schema, after: Schema, diffs: seq<TableDiff>)
    requires NamedSchema(before) && NamedSchema(after) && IsDiff(before, after, diffs)
    ensures Statements(diffs) == [] <==> forall d :: d in diffs ==> d.change.TableUnchanged?
    ensures (forall d :: d in diffs ==> d.change.TableUnchanged?) <==> before == after
  {
    hide *;
    NoStatementIffUnchanged(before, after, diffs);
    AllUnchangedIffSame(before, after, diffs);
  }

  lemma NoStatementIffUnchanged(before: Schema, after: Schema, diffs: seq<TableDiff>)
    requires IsDiff(before, after, diffs)
    ensures Statements(diffs) == [] <==> forall d :: d in diffs ==> d.change.TableUnchanged?
  {
    hide Less;
    hide IsTableDiff;
    hide TableStatements;
    forall d | d in diffs ensures TableStatements(d) == [] <==> d.change.TableUnchanged? {
      SomeStatement(before, after, d);
    }
    NoneAtAll(diffs);
  }

  lemma AllUnchangedIffSame(before: Schema, after: Schema, diffs: seq<TableDiff>)
    requires NamedSchema(before) && NamedSchema(after) && IsDiff(before, after, diffs)
    ensures (forall d :: d in diffs ==> d.change.TableUnchanged?) <==> before == after
  {
    hide Less;
    hide IsTableDiff;
    hide NamedSchema;
    forall d | d in diffs ensures d.change.TableUnchanged? <==>
      d.table in before && d.table in after && before[d.table] == after[d.table] {
      UnchangedIsSame(before, after, d);
    }
    if forall d :: d in diffs ==> d.change.TableUnchanged? {
      forall t | t in before || t in after ensures t in before && t in after && before[t] == after[t] {
        var d :| d in diffs && d.table == t;
      }
      assert before == after;
    } else {
      var d :| d in diffs && !d.change.TableUnchanged?;
      InSome(before, after, d);
    }
  }

  lemma InSome(before: Schema, after: Schema, d: TableDiff)
    requires IsTableDiff(before, after, d)
    ensures d.table in before || d.table in after
  {
  }

  lemma {:induction false} NoneAtAll(diffs: seq<TableDiff>)
    ensures Statements(diffs) == [] <==> forall d :: d in diffs ==> TableStatements(d) == []
    decreases |diffs|
  {
    hide TableStatements;
    if diffs != [] {
      var n := |diffs| - 1;
      NoneAtAll(diffs[..n]);
      assert diffs == diffs[..n] + [diffs[n]];
    }
  }

  lemma {:induction false} NoColumnStatement(t: Name, cols: seq<ColumnDiff>)
    ensures ColumnStatements(t, cols) == [] <==> !AnyChanged(cols)
    decreases |cols|
  {
    if cols != [] {
      var n := |cols| - 1;
      NoColumnStatement(t, cols[..n]);
      assert cols == cols[..n] + [cols[n]];
      assert AnyChanged(cols) <==> AnyChanged(cols[..n]) || !cols[n].ColumnUnchanged?;
    }
  }

  lemma SomeStatement(before: Schema, after: Schema, d: TableDiff)
    requires IsTableDiff(before, after, d)
    ensures TableStatements(d) == [] <==> d.change.TableUnchanged?
  {
    hide IsColumnDiff;
    hide AnyChanged;
    NoColumnStatement(d.table, d.columns);
  }

  lemma UnchangedIsSame(before: Schema, after: Schema, d: TableDiff)
    requires NamedSchema(before) && NamedSchema(after) && IsTableDiff(before, after, d)
    ensures d.change.TableUnchanged? <==> d.table in before && d.table in after && before[d.table] == after[d.table]
  {
    hide Less;
    hide Ascending;
    if d.table in before && d.table in after {
      var b, a := before[d.table], after[d.table];
      assert Named(b) && Named(a);
      if d.change.TableUnchanged? {
        forall n | n in b || n in a ensures n in b && n in a && b[n] == a[n] {
          assert DiffColumn(b, a, n) in d.columns;
        }
        assert b == a;
      }
    }
  }

  /** Schemas as the diff indexes them are filed under their own names. */
  lemma {:induction false} IndexedIsNamed(schemas: seq<TableSchema>)
    ensures NamedSchema(IndexByName(schemas))
    decreases |schemas|
  {
    if schemas != [] {
      IndexedIsNamed(schemas[..|schemas| - 1]);
    }
  }

  /** A new table with a composite key is where the script fails: CREATE TABLE declares the key once per column. */
  lemma CompositeKeyIsRefused(before: Schema, after: Schema, diffs: seq<TableDiff>, t: Name, m: Name, n: Name)
    requires NamedSchema(after) && IsDiff(before, after, diffs)
    requires t in after && t !in before && m in after[t] && n in after[t] && m != n && after[t][m].isPK && after[t][n].isPK
    ensures Run(before, Statements(diffs)) == None
  {
    MigrationReachesTarget(before, after, diffs);
    hide Run;
    hide Statements;
    assert !TableFits(before, after, t);
  }

  /** The script GenerateMigration returns, run on the before side. */
  lemma ScriptOutcome(before: Schema, after: Schema, diffs: seq<TableDiff>, dialect: string, script: Script,
                      now: Schema, ok: bool)
    requires NamedSchema(after) && IsDiff(before, after, diffs)
    requires script == if Statements(diffs) == [] then NoChanges else Script(TransactionalDDL(dialect), Statements(diffs))
    requires Outcome(before, script, now, ok)
    ensures ok <==> KeysFit(before, after)
    ensures ok ==> now == Target(before, after)
    ensures !ok && (dialect == "postgres" || dialect == "sqlite") ==> now == before
  {
    MigrationReachesTarget(before, after, diffs);
    NothingRun(before);
    hide Statements;
    hide IsDiff;
    hide KeysFit;
    hide Target;
    hide Run;
  }

  lemma NothingRun(s: Schema)
    ensures Run(s, []) == Some(s)
  {
  }
}
