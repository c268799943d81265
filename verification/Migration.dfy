/** Schema diff and the migration script made from it, and what running the script does to a database. */
module Migration {
  import opened ByteStrings

  type Name = Bytes

  datatype Column = Column(name: Name, dataType: string, nullable: bool, isPK: bool)

  /** A schema as the database has it: columns by name, tables by name. */
  type Columns = map<Name, Column>
  type Schema = map<Name, Columns>

  datatype TableSchema = TableSchema(name: Name, columns: seq<Column>)

  /** before or after is what engine.Column the side has. */
  datatype ColumnDiff =
    | ColumnAdded(name: Name, after: Column)
    | ColumnRemoved(name: Name, before: Column)
    | ColumnModified(name: Name, before: Column, after: Column)
    | ColumnUnchanged(name: Name, before: Column, after: Column)

  datatype TableChange = TableAdded | TableRemoved | TableModified | TableUnchanged

  datatype TableDiff = TableDiff(table: Name, change: TableChange, columns: seq<ColumnDiff>)

  // ---- Diff ----

  /** columnsByName: the last of several columns of one name. */
  function ColumnsByName(cols: seq<Column>): (m: Columns)
    ensures forall c :: c in m ==> m[c].name == c && m[c] in cols
    ensures forall c :: c in cols ==> c.name in m
  {
    if cols == [] then map[]
    else
      var n := |cols| - 1;
      assert cols == cols[..n] + [cols[n]];
      ColumnsByName(cols[..n])[cols[n].name := cols[n]]
  }

  predicate LastColumn(cols: seq<Column>, i: nat)
    requires i < |cols|
  {
    forall j :: i < j < |cols| ==> cols[j].name != cols[i].name
  }

  predicate LastTable(schemas: seq<TableSchema>, i: nat)
    requires i < |schemas|
  {
    forall j :: i < j < |schemas| ==> schemas[j].name != schemas[i].name
  }

  predicate HasTable(schemas: seq<TableSchema>, t: Name)
  {
    exists s :: s in schemas && s.name == t
  }

  /** indexByName: the last of several tables of one name. */
  function IndexByName(schemas: seq<TableSchema>): Schema
  {
    if schemas == [] then map[]
    else
      var n := |schemas| - 1;
      IndexByName(schemas[..n])[schemas[n].name := ColumnsByName(schemas[n].columns)]
  }

  lemma {:induction false} LastColumnCounts(cols: seq<Column>, i: nat)
    requires i < |cols| && LastColumn(cols, i)
    ensures cols[i].name in ColumnsByName(cols) && ColumnsByName(cols)[cols[i].name] == cols[i]
    decreases |cols|
  {
    if i < |cols| - 1 {
      assert cols[i].name != cols[|cols| - 1].name;
      LastColumnCounts(cols[..|cols| - 1], i);
    }
  }

  lemma {:induction false} LastTableCounts(schemas: seq<TableSchema>, i: nat)
    requires i < |schemas| && LastTable(schemas, i)
    ensures schemas[i].name in IndexByName(schemas) && IndexByName(schemas)[schemas[i].name] == ColumnsByName(schemas[i].columns)
    decreases |schemas|
  {
    if i < |schemas| - 1 {
      assert schemas[i].name != schemas[|schemas| - 1].name;
      LastTableCounts(schemas[..|schemas| - 1], i);
    }
  }

  lemma {:induction false} IndexHasTables(schemas: seq<TableSchema>, t: Name)
    ensures t in IndexByName(schemas) <==> HasTable(schemas, t)
    decreases |schemas|
  {
    hide ColumnsByName;
    if schemas != [] {
      var n := |schemas| - 1;
      assert schemas == schemas[..n] + [schemas[n]];
      IndexHasTables(schemas[..n], t);
    }
  }

  function DiffColumn(b: Columns, a: Columns, n: Name): (d: ColumnDiff)
    requires n in b || n in a
    ensures d.name == n
  {
    if n in b && n !in a then ColumnRemoved(n, b[n])
    else if n !in b then ColumnAdded(n, a[n])
    else if b[n].dataType != a[n].dataType || b[n].nullable != a[n].nullable || b[n].isPK != a[n].isPK then ColumnModified(n, b[n], a[n])
    else ColumnUnchanged(n, b[n], a[n])
  }

  predicate Ascending(names: seq<Name>)
  {
    forall i, j :: 0 <= i < j < |names| ==> Less(names[i], names[j])
  }

  /** The column diffs of two tables, one for every column of either, by name. */
  ghost predicate IsColumnDiff(b: Columns, a: Columns, cols: seq<ColumnDiff>)
  {
    && Ascending(seq(|cols|, i requires 0 <= i < |cols| => cols[i].name))
    && (forall c :: c in cols ==> (c.name in b || c.name in a) && c == DiffColumn(b, a, c.name))
    && (forall n :: n in b || n in a ==> DiffColumn(b, a, n) in cols)
  }

  /** The diffs so far; the names to do all come after them. */
  ghost predicate ColumnsSoFar(b: Columns, a: Columns, cols: seq<ColumnDiff>, todo: set<Name>)
  {
    && todo <= b.Keys + a.Keys
    && (forall c :: c in cols ==> (c.name in b || c.name in a) && c == DiffColumn(b, a, c.name))
    && (forall n :: n in b || n in a ==> n in todo || DiffColumn(b, a, n) in cols)
    && (forall i, j :: 0 <= i < j < |cols| ==> Less(cols[i].name, cols[j].name))
    && (forall i, n :: 0 <= i < |cols| && n in todo ==> Less(cols[i].name, n))
  }

  lemma ColumnsStart(b: Columns, a: Columns)
    ensures ColumnsSoFar(b, a, [], b.Keys + a.Keys)
  {
  }

  lemma ColumnsNext(b: Columns, a: Columns, cols: seq<ColumnDiff>, todo: set<Name>, n: Name)
    requires ColumnsSoFar(b, a, cols, todo) && n in todo && forall x :: x in todo ==> Leq(n, x)
    ensures n in b || n in a
    ensures ColumnsSoFar(b, a, cols + [DiffColumn(b, a, n)], todo - {n})
  {
    forall x | x in todo && x != n ensures Less(n, x) {
      LessTotal(n, x);
    }
    hide Less;
    hide DiffColumn;
    var more := cols + [DiffColumn(b, a, n)];
    assert forall c :: c in more <==> c in cols || c == DiffColumn(b, a, n);
  }

  lemma ColumnsDone(b: Columns, a: Columns, cols: seq<ColumnDiff>)
    requires ColumnsSoFar(b, a, cols, {})
    ensures IsColumnDiff(b, a, cols)
  {
  }

  /** diffColumns; with one side empty also allColumns. The columns come in the order of the final sort. */
  method DiffColumns(b: Columns, a: Columns) returns (cols: seq<ColumnDiff>)
    ensures IsColumnDiff(b, a, cols)
  {
    hide ColumnsSoFar;
    hide IsColumnDiff;
    hide Less;
    cols := [];
    var todo := b.Keys + a.Keys;
    ColumnsStart(b, a);
    while todo != {}
      invariant ColumnsSoFar(b, a, cols, todo)
      decreases |todo|
    {
      var n := Least(todo);
      ColumnsNext(b, a, cols, todo, n);
      todo := todo - {n};
      cols := cols + [DiffColumn(b, a, n)];
    }
    ColumnsDone(b, a, cols);
  }

  function Look(s: Schema, t: Name): Columns
  {
    if t in s then s[t] else map[]
  }

  predicate AnyChanged(cols: seq<ColumnDiff>)
  {
    exists c :: c in cols && !c.ColumnUnchanged?
  }

  ghost predicate IsTableDiff(before: Schema, after: Schema, d: TableDiff)
  {
    && (d.table in before || d.table in after)
    && IsColumnDiff(Look(before, d.table), Look(after, d.table), d.columns)
    && d.change == (if d.table !in after then TableRemoved else if d.table !in before then TableAdded
                    else if AnyChanged(d.columns) then TableModified else TableUnchanged)
  }

  /** One diff for every table of either schema, by name. */
  ghost predicate IsDiff(before: Schema, after: Schema, diffs: seq<TableDiff>)
  {
    && (forall i, j :: 0 <= i < j < |diffs| ==> Less(diffs[i].table, diffs[j].table))
    && (forall d :: d in diffs ==> IsTableDiff(before, after, d))
    && (forall t :: t in before || t in after ==> exists d :: d in diffs && d.table == t)
  }

  ghost predicate TablesSoFar(b: Schema, a: Schema, diffs: seq<TableDiff>, todo: set<Name>)
  {
    && todo <= b.Keys + a.Keys
    && (forall d :: d in diffs ==> IsTableDiff(b, a, d))
    && (forall t :: t in b || t in a ==> t in todo || exists d :: d in diffs && d.table == t)
    && (forall i, j :: 0 <= i < j < |diffs| ==> Less(diffs[i].table, diffs[j].table))
    && (forall i, t :: 0 <= i < |diffs| && t in todo ==> Less(diffs[i].table, t))
  }

  lemma TablesStart(b: Schema, a: Schema)
    ensures TablesSoFar(b, a, [], b.Keys + a.Keys)
  {
  }

  lemma TablesNext(b: Schema, a: Schema, diffs: seq<TableDiff>, todo: set<Name>, d: TableDiff)
    requires TablesSoFar(b, a, diffs, todo) && d.table in todo && forall x :: x in todo ==> Leq(d.table, x)
    requires IsTableDiff(b, a, d)
    ensures TablesSoFar(b, a, diffs + [d], todo - {d.table})
  {
    hide IsTableDiff;
    forall x | x in todo && x != d.table ensures Less(d.table, x) {
      LessTotal(d.table, x);
    }
    hide Less;
    var more := diffs + [d];
    assert forall x :: x in more <==> x in diffs || x == d;
  }

  lemma TablesDone(b: Schema, a: Schema, diffs: seq<TableDiff>)
    requires TablesSoFar(b, a, diffs, {})
    ensures IsDiff(b, a, diffs)
  {
  }

  method DiffTable(b: Schema, a: Schema, t: Name) returns (d: TableDiff)
    requires t in b || t in a
    ensures d.table == t && IsTableDiff(b, a, d)
  {
    hide IsColumnDiff;
    var cols := DiffColumns(Look(b, t), Look(a, t));
    if t !in a {
      return TableDiff(t, TableRemoved, cols);
    }
    if t !in b {
      return TableDiff(t, TableAdded, cols);
    }
    var change := TableUnchanged;
    for i := 0 to |cols|
      invariant change == if AnyChanged(cols[..i]) then TableModified else TableUnchanged
    {
      assert cols[..i + 1] == cols[..i] + [cols[i]];
      if !cols[i].ColumnUnchanged? {
        change := TableModified;
      }
    }
    assert cols[..|cols|] == cols;
    return TableDiff(t, change, cols);
  }

  /** The diff tells of every table of the two lists, and of no other, whether it is new, gone or on both sides. */
  ghost predicate TellsTables(before: seq<TableSchema>, after: seq<TableSchema>, diffs: seq<TableDiff>)
  {
    && (forall s :: s in before || s in after ==> exists d :: d in diffs && d.table == s.name)
    && (forall d :: d in diffs ==> HasTable(before, d.table) || HasTable(after, d.table))
    && (forall d :: d in diffs ==> (d.change.TableAdded? <==> !HasTable(before, d.table)) && (d.change.TableRemoved? <==> !HasTable(after, d.table)))
  }

  /** The side has this column in its table of that name. */
  ghost predicate HasColumn(side: seq<TableSchema>, t: Name, c: Column)
  {
    exists i :: 0 <= i < |side| && side[i].name == t && LastTable(side, i) && ColumnOf(side[i].columns, c)
  }

  ghost predicate ColumnOf(cols: seq<Column>, c: Column)
  {
    exists k :: 0 <= k < |cols| && cols[k] == c && LastColumn(cols, k)
  }

  /** A table's diff tells of every column of either side just as that side has it, and of no other. */
  ghost predicate TellsColumns(before: seq<TableSchema>, after: seq<TableSchema>, d: TableDiff)
  {
    && (forall c :: HasColumn(after, d.table, c) ==> exists x :: x in d.columns && x.name == c.name && !x.ColumnRemoved? && x.after == c)
    && (forall c :: HasColumn(before, d.table, c) ==> exists x :: x in d.columns && x.name == c.name && !x.ColumnAdded? && x.before == c)
    && (forall x :: x in d.columns && !x.ColumnRemoved? ==> x.after.name == x.name && HasColumn(after, d.table, x.after))
    && (forall x :: x in d.columns && !x.ColumnAdded? ==> x.before.name == x.name && HasColumn(before, d.table, x.before))
  }

  lemma DiffTells(before: seq<TableSchema>, after: seq<TableSchema>, diffs: seq<TableDiff>)
    requires IsDiff(IndexByName(before), IndexByName(after), diffs)
    ensures TellsTables(before, after, diffs) && forall d :: d in diffs ==> TellsColumns(before, after, d)
  {
    hide *;
    TellsOfTables(before, after, diffs);
    forall d | d in diffs ensures TellsColumns(before, after, d) {
      TellsOfColumns(before, after, diffs, d);
    }
  }

  /** The index has just the columns that the lists have. */
  lemma IndexedColumns(side: seq<TableSchema>, t: Name, c: Column)
    ensures HasColumn(side, t, c) <==> t in IndexByName(side) && c.name in IndexByName(side)[t] && IndexByName(side)[t][c.name] == c
  {
    IndexHasTables(side, t);
    hide IndexByName;
    hide ColumnsByName;
    if HasTable(side, t) {
      var i := LastOf(side, t);
      LastTableCounts(side, i);
      hide LastTable;
      LastColumns(side[i].columns, c);
      hide ColumnOf;
    }
  }

  lemma LastOf(side: seq<TableSchema>, t: Name) returns (i: nat)
    requires HasTable(side, t)
    ensures i < |side| && side[i].name == t && LastTable(side, i)
    ensures forall j :: 0 <= j < |side| && side[j].name == t && LastTable(side, j) ==> j == i
  {
    i := |side|;
    while i > 0
      invariant i <= |side| && forall j :: i <= j < |side| ==> side[j].name != t
    {
      i := i - 1;
      if side[i].name == t {
        return;
      }
    }
    assert false;
  }

  lemma LastColumns(cols: seq<Column>, c: Column)
    ensures ColumnOf(cols, c) <==> c.name in ColumnsByName(cols) && ColumnsByName(cols)[c.name] == c
  {
    hide ColumnsByName;
    if c in cols {
      var k := LastNamed(cols, c);
      LastColumnCounts(cols, k);
    }
  }

  lemma LastNamed(cols: seq<Column>, c: Column) returns (k: nat)
    requires c in cols
    ensures k < |cols| && cols[k].name == c.name && LastColumn(cols, k)
  {
    k := |cols|;
    while k > 0
      invariant 0 <= k <= |cols| && forall j :: k <= j < |cols| ==> cols[j].name != c.name
    {
      k := k - 1;
      if cols[k].name == c.name {
        return;
      }
    }
    assert false;
  }

  lemma TellsOfTables(before: seq<TableSchema>, after: seq<TableSchema>, diffs: seq<TableDiff>)
    requires IsDiff(IndexByName(before), IndexByName(after), diffs)
    ensures TellsTables(before, after, diffs)
  {
    hide IndexByName;
    hide IsDiff;
    TablesTold(IndexByName(before), IndexByName(after), diffs);
    forall t ensures t in IndexByName(before) <==> HasTable(before, t)
             ensures t in IndexByName(after) <==> HasTable(after, t) {
      IndexHasTables(before, t);
      IndexHasTables(after, t);
    }
    forall s | s in before || s in after ensures s.name in IndexByName(before) || s.name in IndexByName(after) {
      assert HasTable(before, s.name) || HasTable(after, s.name);
    }
    hide HasTable;
  }

  lemma TablesTold(b: Schema, a: Schema, diffs: seq<TableDiff>)
    requires IsDiff(b, a, diffs)
    ensures forall t :: t in b || t in a ==> exists d :: d in diffs && d.table == t
    ensures forall d :: d in diffs ==>
      && (d.table in b || d.table in a)
      && (d.change.TableAdded? <==> d.table !in b) && (d.change.TableRemoved? <==> d.table !in a)
  {
    forall d | d in diffs
      ensures (d.table in b || d.table in a) && (d.change.TableAdded? <==> d.table !in b) && (d.change.TableRemoved? <==> d.table !in a)
    {
      ChangeTells(b, a, d);
    }
  }

  lemma ChangeTells(b: Schema, a: Schema, d: TableDiff)
    requires IsTableDiff(b, a, d)
    ensures d.table in b || d.table in a
    ensures (d.change.TableAdded? <==> d.table !in b) && (d.change.TableRemoved? <==> d.table !in a)
  {
    hide IsColumnDiff;
    hide AnyChanged;
  }

  lemma TellsOfColumns(before: seq<TableSchema>, after: seq<TableSchema>, diffs: seq<TableDiff>, d: TableDiff)
    requires IsDiff(IndexByName(before), IndexByName(after), diffs) && d in diffs
    ensures TellsColumns(before, after, d)
  {
    SidesOf(before, after, diffs, d);
    hide IsDiff;
    hide IndexByName;
    forall c
      ensures HasColumn(after, d.table, c) <==> c.name in Look(IndexByName(after), d.table) && Look(IndexByName(after), d.table)[c.name] == c
      ensures HasColumn(before, d.table, c) <==> c.name in Look(IndexByName(before), d.table) && Look(IndexByName(before), d.table)[c.name] == c
    {
      IndexedColumns(after, d.table, c);
      IndexedColumns(before, d.table, c);
    }
    hide HasColumn;
    hide Look;
  }

  lemma SidesOf(before: seq<TableSchema>, after: seq<TableSchema>, diffs: seq<TableDiff>, d: TableDiff)
    requires IsDiff(IndexByName(before), IndexByName(after), diffs) && d in diffs
    ensures TellsSides(Look(IndexByName(before), d.table), Look(IndexByName(after), d.table), d.columns)
  {
    assert IsTableDiff(IndexByName(before), IndexByName(after), d);
    hide *;
    IndexedNames(before, d.table);
    IndexedNames(after, d.table);
    ColumnDiffTells(IndexByName(before), IndexByName(after), d);
  }

  /** Every column of either table is told of as it is there, and no other. */
  ghost predicate TellsSides(b: Columns, a: Columns, cols: seq<ColumnDiff>)
  {
    && (forall n :: n in a ==> exists x :: x in cols && x.name == n && !x.ColumnRemoved? && x.after == a[n])
    && (forall n :: n in b ==> exists x :: x in cols && x.name == n && !x.ColumnAdded? && x.before == b[n])
    && (forall x :: x in cols && !x.ColumnRemoved? ==> x.after.name == x.name && x.name in a && x.after == a[x.name])
    && (forall x :: x in cols && !x.ColumnAdded? ==> x.before.name == x.name && x.name in b && x.before == b[x.name])
  }

  /** Columns are filed under their own names. */
  predicate Named(cols: Columns)
  {
    forall c :: c in cols ==> cols[c].name == c
  }

  lemma {:induction false} IndexedNames(side: seq<TableSchema>, t: Name)
    ensures Named(Look(IndexByName(side), t))
  {
    if side != [] {
      IndexedNames(side[..|side| - 1], t);
    }
  }

  lemma ColumnDiffTells(b: Schema, a: Schema, d: TableDiff)
    requires IsTableDiff(b, a, d) && Named(Look(b, d.table)) && Named(Look(a, d.table))
    ensures TellsSides(Look(b, d.table), Look(a, d.table), d.columns)
  {
    hide Less;
    hide Ascending;
    hide AnyChanged;
    var x, y := Look(b, d.table), Look(a, d.table);
    forall n | n in x || n in y ensures DiffColumn(x, y, n) in d.columns && DiffColumn(x, y, n).name == n {
    }
  }

  method Diff(before: seq<TableSchema>, after: seq<TableSchema>) returns (diffs: seq<TableDiff>)
    ensures IsDiff(IndexByName(before), IndexByName(after), diffs)
    ensures TellsTables(before, after, diffs) && forall d :: d in diffs ==> TellsColumns(before, after, d)
  {
    hide TablesSoFar;
    hide IsTableDiff;
    hide IsDiff;
    hide Less;
    hide IndexByName;
    var b, a := IndexByName(before), IndexByName(after);
    diffs := [];
    var todo := b.Keys + a.Keys;
    TablesStart(b, a);
    while todo != {}
      invariant TablesSoFar(b, a, diffs, todo) && todo <= b.Keys + a.Keys
      decreases |todo|
    {
      var t := Least(todo);
      var d := DiffTable(b, a, t);
      TablesNext(b, a, diffs, todo, d);
      todo := todo - {t};
      diffs := diffs + [d];
    }
    TablesDone(b, a, diffs);
    hide *;
    DiffTells(before, after, diffs);
  }

  method HasChanges(diffs: seq<TableDiff>) returns (changed: bool)
    ensures changed <==> exists d :: d in diffs && !d.change.TableUnchanged?
  {
    for i := 0 to |diffs|
      invariant forall k :: 0 <= k < i ==> diffs[k].change.TableUnchanged?
    {
      if !diffs[i].change.TableUnchanged? {
        assert diffs[i] in diffs;
        return true;
      }
    }
    return false;
  }

  // ---- The script ----

  /** The statements a script is made of; a review note is a comment. */
  datatype Statement =
    | CreateTable(table: Name, columns: seq<Column>)
    | DropTable(table: Name)
    | AddColumn(table: Name, column: Column)
    | DropColumn(table: Name, name: Name)
    | ReviewNote(table: Name, name: Name)

  function ColumnStatements(t: Name, cols: seq<ColumnDiff>): seq<Statement>
  {
    if cols == [] then []
    else
      var c := cols[|cols| - 1];
      ColumnStatements(t, cols[..|cols| - 1]) + ColumnStatement(t, c)
  }

  /** The columns of a table that is wholly new. */
  function NewColumns(cols: seq<ColumnDiff>): seq<Column>
  {
    if cols == [] then []
    else
      var c := cols[|cols| - 1];
      NewColumns(cols[..|cols| - 1]) + (if c.ColumnAdded? then [c.after] else [])
  }

  function TableStatements(d: TableDiff): seq<Statement>
  {
    match d.change
    case TableAdded => [CreateTable(d.table, NewColumns(d.columns))]
    case TableRemoved => [DropTable(d.table)]
    case TableModified => ColumnStatements(d.table, d.columns)
    case TableUnchanged => []
  }

  function Statements(diffs: seq<TableDiff>): seq<Statement>
  {
    if diffs == [] then [] else Statements(diffs[..|diffs| - 1]) + TableStatements(diffs[|diffs| - 1])
  }

  datatype Script = NoChanges | Script(transactional: bool, statements: seq<Statement>)

  predicate TransactionalDDL(dialect: string)
  {
    dialect == "postgres" || dialect == "sqlite"
  }

  lemma StatementsNext(diffs: seq<TableDiff>, i: nat)
    requires i < |diffs|
    ensures Statements(diffs[..i + 1]) == Statements(diffs[..i]) + TableStatements(diffs[i])
  {
    assert diffs[..i + 1][..i] == diffs[..i];
  }

  function ColumnStatement(t: Name, c: ColumnDiff): seq<Statement>
  {
    match c
    case ColumnAdded(_, after) => [AddColumn(t, after)]
    case ColumnRemoved(n, _) => [DropColumn(t, n)]
    case ColumnModified(n, _, _) => [ReviewNote(t, n)]
    case ColumnUnchanged(_, _, _) => []
  }

  lemma ColumnStatementsNext(t: Name, cols: seq<ColumnDiff>, i: nat)
    requires i < |cols|
    ensures ColumnStatements(t, cols[..i + 1]) == ColumnStatements(t, cols[..i]) + ColumnStatement(t, cols[i])
  {
    assert cols[..i + 1][..i] == cols[..i];
  }

  /** renderCreateTable. */
  method RenderCreateTable(d: TableDiff) returns (s: Statement)
    ensures s == CreateTable(d.table, NewColumns(d.columns))
  {
    var defs: seq<Column> := [];
    for j := 0 to |d.columns|
      invariant defs == NewColumns(d.columns[..j])
    {
      assert d.columns[..j + 1][..j] == d.columns[..j];
      if d.columns[j].ColumnAdded? {
        defs := defs + [d.columns[j].after];
      }
    }
    assert d.columns[..|d.columns|] == d.columns;
    s := CreateTable(d.table, defs);
  }

  /** The column loop of GenerateMigration. */
  method RenderColumns(d: TableDiff) returns (out: seq<Statement>)
    ensures out == ColumnStatements(d.table, d.columns)
  {
    hide ColumnStatements;
    out := [];
    assert ColumnStatements(d.table, d.columns[..0]) == [] by {
      NoColumnStatements(d.table);
    }
    for j := 0 to |d.columns|
      invariant out == ColumnStatements(d.table, d.columns[..j])
    {
      ColumnStatementsNext(d.table, d.columns, j);
      match d.columns[j] {
        case ColumnAdded(_, after) => out := out + [AddColumn(d.table, after)];
        case ColumnRemoved(n, _) => out := out + [DropColumn(d.table, n)];
        case ColumnModified(n, _, _) => out := out + [ReviewNote(d.table, n)];
        case ColumnUnchanged(_, _, _) =>
      }
    }
    assert d.columns[..|d.columns|] == d.columns;
  }

  lemma NoColumnStatements(t: Name)
    ensures ColumnStatements(t, []) == []
  {
  }

  lemma NoStatements(diffs: seq<TableDiff>)
    requires diffs == []
    ensures Statements(diffs) == []
  {
  }

  /** GenerateMigration, statement by statement. */
  method GenerateMigration(diffs: seq<TableDiff>, dialect: string) returns (script: Script)
    ensures script == if Statements(diffs) == [] then NoChanges else Script(TransactionalDDL(dialect), Statements(diffs))
    ensures script.Script? ==> (script.transactional <==> dialect in ["postgres", "sqlite"])
  {
    hide Statements;
    hide ColumnStatements;
    hide NewColumns;
    var out: seq<Statement> := [];
    var any := false;
    NoStatements(diffs[..0]);
    for i := 0 to |diffs|
      invariant out == Statements(diffs[..i]) && any == (out != [])
    {
      StatementsNext(diffs, i);
      var d := diffs[i];
      match d.change {
        case TableAdded =>
          any := true;
          var create := RenderCreateTable(d);
          out := out + [create];
        case TableRemoved =>
          any := true;
          out := out + [DropTable(d.table)];
        case TableModified =>
          var alters := RenderColumns(d);
          any := any || alters != [];
          out := out + alters;
        case TableUnchanged =>
      }
    }
    assert diffs[..|diffs|] == diffs;
    if !any {
      return NoChanges;
    }
    return Script(TransactionalDDL(dialect), out);
  }
}
