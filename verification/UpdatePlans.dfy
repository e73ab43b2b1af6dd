// What INSERT and CREATE INDEX are compiled from, told from the statement and the schema alone:
// which of them are accepted, which indexes an INSERT keeps up, which column is indexed.
module UpdatePlans {
  import opened Common
  import opened Sql
  import opened Planner
  import opened Naming
  import opened Acceptance
  import opened InsertLayout
  import opened IndexLayout

  // ---- INSERT ----------------------------------------------------------------------------------------------

  // The item is an index with this root, on column i of the table.
  predicate IndexesColumn(item: SchemaItem, table: string, columns: seq<Column>, root: nat, i: nat) {
    item.IndexItem? && SameLetters(item.table, table) && item.root == root && IsColumn(columns, item.column, i)
  }

  // The schema has such an index.
  predicate KeepsIndex(schema: seq<SchemaItem>, table: string, columns: seq<Column>, root: nat, i: nat) {
    exists item :: item in schema && IndexesColumn(item, table, columns, root, i)
  }

  lemma TargetIs(item: SchemaItem, table: string, columns: seq<Column>, root: nat, i: nat)
    ensures IndexTarget(root, i) in TargetOf(item, table, columns) <==> IndexesColumn(item, table, columns, root, i)
  {
    hide ColumnIndex, SameName, IsColumn, SameLetters;
    if item.IndexItem? {
      SameNameIs(item.table, table);
      ColumnIndexIs(columns, item.column, i);
    }
  }

  // An INSERT lists the indexes of its table, all of them and no others.
  lemma {:induction false} TargetsAre(schema: seq<SchemaItem>, table: string, columns: seq<Column>, root: nat, i: nat)
    ensures IndexTarget(root, i) in TargetsOf(schema, table, columns) <==> KeepsIndex(schema, table, columns, root, i)
  {
    hide TargetOf, IndexesColumn;
    if schema != [] {
      var front, last := schema[..|schema| - 1], schema[|schema| - 1];
      assert schema == front + [last];
      TargetsAre(front, table, columns, root, i);
      TargetIs(last, table, columns, root, i);
    }
  }

  // Positions of the schema that hold an index on some column of the table.
  ghost function IndexPositions(schema: seq<SchemaItem>, table: string, columns: seq<Column>): set<nat> {
    set n: nat | n < |schema| && IsIndexOfTable(schema[n], table, columns)
  }

  ghost predicate IsIndexOfTable(item: SchemaItem, table: string, columns: seq<Column>) {
    item.IndexItem? && SameLetters(item.table, table) && HasColumnNamed(columns, item.column)
  }

  lemma OneTarget(item: SchemaItem, table: string, columns: seq<Column>)
    ensures |TargetOf(item, table, columns)| == if IsIndexOfTable(item, table, columns) then 1 else 0
  {
    hide ColumnIndex, SameName, HasColumnNamed, SameLetters;
    if item.IndexItem? {
      SameNameIs(item.table, table);
      ColumnIndexIs(columns, item.column, 0);
    }
  }

  // It lists each of them once.
  lemma {:induction false} TargetsOnce(schema: seq<SchemaItem>, table: string, columns: seq<Column>)
    ensures |TargetsOf(schema, table, columns)| == |IndexPositions(schema, table, columns)|
  {
    hide TargetOf, IsIndexOfTable;
    if schema == [] {
      assert IndexPositions(schema, table, columns) == {};
    } else {
      var n := |schema| - 1;
      var front, before := schema[..n], IndexPositions(schema[..n], table, columns);
      TargetsOnce(front, table, columns);
      OneTarget(schema[n], table, columns);
      assert IndexPositions(schema, table, columns) == before + if IsIndexOfTable(schema[n], table, columns) then {n} else {};
    }
  }

  // The key column: the first one that is marked as primary key, or the first of all.
  predicate IsKeyColumn(columns: seq<Column>, k: nat) {
    if exists j :: 0 <= j < |columns| && columns[j].primaryKey
    then k < |columns| && columns[k].primaryKey && forall j :: 0 <= j < k ==> !columns[j].primaryKey
    else k == 0
  }

  lemma {:induction false} FirstKeyFrom(columns: seq<Column>, i: nat)
    ensures var r := FirstPrimaryKey(columns, i);
      if exists j :: i <= j < |columns| && columns[j].primaryKey
      then i <= r < |columns| && columns[r].primaryKey && forall j :: i <= j < r ==> !columns[j].primaryKey
      else r == 0
    decreases |columns| - i
  {
    if i < |columns| {
      FirstKeyFrom(columns, i + 1);
    }
  }

  lemma KeyColumnIs(columns: seq<Column>)
    ensures IsKeyColumn(columns, PrimaryKeyIndex(columns))
  {
    FirstKeyFrom(columns, 0);
  }

  // One literal for each column, of its type.
  predicate RowMatches(columns: seq<Column>, values: seq<Literal>) {
    |values| == |columns| && forall i :: 0 <= i < |columns| ==> OfType(values[i], columns[i].dataType)
  }

  ghost predicate InsertAccepted(schema: seq<SchemaItem>, table: string, values: seq<Literal>) {
    exists t :: t in schema && t.TableItem? && IsTable(schema, table, t) && RowMatches(t.columns, values)
  }

  lemma RowMatchesIs(columns: seq<Column>, values: seq<Literal>)
    ensures LiteralsMatch(columns, values) <==> RowMatches(columns, values)
  {
    hide LiteralMatches, OfType;
    if |values| == |columns| {
      forall i | 0 <= i < |columns| ensures LiteralMatches(values[i], columns[i].dataType) <==> OfType(values[i], columns[i].dataType) {
        MatchesType(values[i], columns[i].dataType);
      }
    }
  }

  // An INSERT has a plan if and only if it is accepted as told above, and which.
  lemma InsertPlanIs(schema: seq<SchemaItem>, table: string, values: seq<Literal>)
    ensures PlanInsert(schema, table, values).Some? <==> InsertAccepted(schema, table, values)
    ensures PlanInsert(schema, table, values).Some? ==>
      var p := PlanInsert(schema, table, values).value;
      && (exists t :: t in schema && IsTable(schema, table, t) && t.TableItem? && p.root == t.root && p.columns == t.columns)
      && RowMatches(p.columns, values) && p.values == values && IsKeyColumn(p.columns, p.pk)
      && |p.targets| == |IndexPositions(schema, table, p.columns)|
      && forall root: nat, i: nat :: IndexTarget(root, i) in p.targets <==> KeepsIndex(schema, table, p.columns, root, i)
  {
    hide FindTable, IsTable, LiteralsMatch, RowMatches, TargetsOf, PrimaryKeyIndex, IsKeyColumn, KeepsIndex, IndexPositions;
    var found := FindTable(schema, table);
    if found.Some? {
      var columns := found.value.columns;
      FindTableIs(schema, table, found.value);
      RowMatchesIs(columns, values);
      KeyColumnIs(columns);
      TargetsOnce(schema, table, columns);
      forall root: nat, i: nat ensures IndexTarget(root, i) in TargetsOf(schema, table, columns) <==> KeepsIndex(schema, table, columns, root, i) {
        TargetsAre(schema, table, columns, root, i);
      }
    }
    if InsertAccepted(schema, table, values) {
      var t :| t in schema && t.TableItem? && IsTable(schema, table, t) && RowMatches(t.columns, values);
      FindTableIs(schema, table, t);
    }
  }

  // ---- CREATE INDEX ----------------------------------------------------------------------------------------

  // An integer column of a table that exists.
  ghost predicate NamesColumn(schema: seq<SchemaItem>, table: string, column: string, t: SchemaItem, i: nat) {
    && t.TableItem? && IsTable(schema, table, t) && IsColumn(t.columns, column, i) && i < |t.columns| && t.columns[i].dataType == TypeInt
  }

  ghost predicate IndexAccepted(schema: seq<SchemaItem>, table: string, column: string) {
    exists t, i: nat :: NamesColumn(schema, table, column, t, i)
  }

  // The bytes of a name.
  predicate Spells(t: text, s: string) {
    |t| == |s| && forall i :: 0 <= i < |s| && s[i] as int < 0x100 ==> t[i] as int == s[i] as int
  }

  lemma TextSpells(s: string)
    ensures Spells(TextOf(s), s)
  {
  }

  // A CREATE INDEX has a plan if and only if it names an integer column, and then the plan is for
  // that column of that table, with both names and the text of the statement, and a key above all
  // others.
  lemma IndexPlanIs(schema: seq<SchemaItem>, name: string, table: string, column: string, sql: text)
    ensures PlanIndex(schema, name, table, column, sql).Some? <==> IndexAccepted(schema, table, column)
    ensures PlanIndex(schema, name, table, column, sql).Some? ==>
      var p := PlanIndex(schema, name, table, column, sql).value;
      && (exists t :: NamesColumn(schema, table, column, t, p.col) && p.root == t.root && p.columns == t.columns)
      && Spells(p.name, name) && Spells(p.table, table) && p.sql == sql && forall item :: item in schema ==> item.key < p.key
  {
    hide FindTable, IsTable, ColumnIndex, IsColumn, TextOf, Spells;
    var found := FindTable(schema, table);
    TextSpells(name);
    TextSpells(table);
    if found.Some? {
      var t := found.value;
      FindTableIs(schema, table, t);
      ColumnIndexIs(t.columns, column, 0);
      if ColumnIndex(t.columns, column).Some? {
        var i := ColumnIndex(t.columns, column).value;
        ColumnIndexIs(t.columns, column, i);
        assert t.columns[i].dataType == TypeInt ==> NamesColumn(schema, table, column, t, i);
      }
    }
    if IndexAccepted(schema, table, column) {
      var t, i: nat :| NamesColumn(schema, table, column, t, i);
      FindTableIs(schema, table, t);
      ColumnIndexIs(t.columns, column, i);
    }
  }
}
