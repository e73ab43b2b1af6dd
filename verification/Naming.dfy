// What a name in a statement stands for, told from the schema alone: letters without their case,
// the first column, table or index that fits.
module Naming {
  import opened Common
  import opened Sql

  // ---- letters ---------------------------------------------------------------------------------------

  predicate LowerOf(lower: char, upper: char) {
    'A' <= upper <= 'Z' && lower as int == upper as int + 32
  }

  predicate SameLetter(c: char, d: char) {
    c == d || LowerOf(c, d) || LowerOf(d, c)
  }

  predicate SameLetters(a: string, b: string) {
    |a| == |b| && forall i :: 0 <= i < |a| ==> SameLetter(a[i], b[i])
  }

  // strcasecmp looks past the case of letters and at nothing else.
  lemma SameNameIs(a: string, b: string)
    ensures SameName(a, b) <==> SameLetters(a, b)
  {
    if |a| == |b| {
      forall i | 0 <= i < |a| ensures Fold(a[i]) == Fold(b[i]) <==> SameLetter(a[i], b[i]) {
        FoldIs(a[i], b[i]);
      }
    }
  }

  lemma FoldIs(c: char, d: char)
    ensures Fold(c) == Fold(d) <==> SameLetter(c, d)
  {
  }

  // ---- columns ---------------------------------------------------------------------------------------

  // Column i is the first one of that name.
  predicate IsColumn(columns: seq<Column>, name: string, i: nat) {
    i < |columns| && SameLetters(columns[i].name, name) && forall j :: 0 <= j < i ==> !SameLetters(columns[j].name, name)
  }

  ghost predicate HasColumnNamed(columns: seq<Column>, name: string) {
    exists i: nat :: IsColumn(columns, name, i)
  }

  lemma {:induction false} ColumnIndexFirst(columns: seq<Column>, name: string)
    ensures ColumnIndex(columns, name).Some? ==> IsColumn(columns, name, ColumnIndex(columns, name).value)
    ensures ColumnIndex(columns, name).None? ==> forall i :: 0 <= i < |columns| ==> !SameLetters(columns[i].name, name)
  {
    hide SameName, SameLetters;
    if columns != [] {
      SameNameIs(columns[0].name, name);
      ColumnIndexFirst(columns[1..], name);
      if !SameLetters(columns[0].name, name) && ColumnIndex(columns[1..], name).Some? {
        var k := ColumnIndex(columns[1..], name).value;
        forall j | 0 <= j < k + 1 ensures !SameLetters(columns[j].name, name) {
          if j != 0 { assert columns[j] == columns[1..][j - 1]; }
        }
      }
    }
  }

  // The lookup gives the first column of the name, and nothing only when there is none.
  lemma ColumnIndexIs(columns: seq<Column>, name: string, i: nat)
    ensures ColumnIndex(columns, name) == Some(i) <==> IsColumn(columns, name, i)
    ensures ColumnIndex(columns, name).Some? <==> HasColumnNamed(columns, name)
  {
    hide ColumnIndex, SameLetters;
    ColumnIndexFirst(columns, name);
    if ColumnIndex(columns, name).Some? && IsColumn(columns, name, i) {
      var k := ColumnIndex(columns, name).value;
      assert !(k < i) && !(i < k);
    }
  }

  // ---- tables and indexes ------------------------------------------------------------------------------

  predicate IsTableNamed(item: SchemaItem, name: string) {
    item.TableItem? && SameLetters(item.name, name)
  }

  // The first table of that name.
  predicate IsTable(schema: seq<SchemaItem>, name: string, item: SchemaItem) {
    exists k :: 0 <= k < |schema| && schema[k] == item && IsTableNamed(schema[k], name)
                && forall j :: 0 <= j < k ==> !IsTableNamed(schema[j], name)
  }

  lemma {:induction false} FindTableFirst(schema: seq<SchemaItem>, name: string)
    ensures FindTable(schema, name).Some? ==> IsTable(schema, name, FindTable(schema, name).value)
    ensures FindTable(schema, name).None? ==> forall k :: 0 <= k < |schema| ==> !IsTableNamed(schema[k], name)
  {
    hide SameName, SameLetters;
    if schema != [] {
      if schema[0].TableItem? { SameNameIs(schema[0].name, name); }
      FindTableFirst(schema[1..], name);
      if !IsTableNamed(schema[0], name) && FindTable(schema[1..], name).Some? {
        var rest := schema[1..];
        var k :| 0 <= k < |rest| && rest[k] == FindTable(rest, name).value && IsTableNamed(rest[k], name)
                 && forall j :: 0 <= j < k ==> !IsTableNamed(rest[j], name);
        assert schema[k + 1] == rest[k];
        forall j | 0 <= j < k + 1 ensures !IsTableNamed(schema[j], name) {
          if j != 0 { assert schema[j] == rest[j - 1]; }
        }
      }
    }
  }

  // The lookup gives the first table of the name, and nothing only when there is none.
  lemma FindTableIs(schema: seq<SchemaItem>, name: string, item: SchemaItem)
    ensures FindTable(schema, name) == Some(item) <==> IsTable(schema, name, item)
    ensures FindTable(schema, name).None? <==> forall k :: 0 <= k < |schema| ==> !IsTableNamed(schema[k], name)
  {
    hide FindTable, IsTableNamed;
    FindTableFirst(schema, name);
    if FindTable(schema, name).Some? && IsTable(schema, name, item) {
      OneTable(schema, name, item, FindTable(schema, name).value);
    }
  }

  lemma OneTable(schema: seq<SchemaItem>, name: string, a: SchemaItem, b: SchemaItem)
    requires IsTable(schema, name, a) && IsTable(schema, name, b)
    ensures a == b
  {
    hide IsTableNamed;
    var k :| 0 <= k < |schema| && schema[k] == a && IsTableNamed(schema[k], name) && forall j :: 0 <= j < k ==> !IsTableNamed(schema[j], name);
    var l :| 0 <= l < |schema| && schema[l] == b && IsTableNamed(schema[l], name) && forall j :: 0 <= j < l ==> !IsTableNamed(schema[j], name);
    assert !(k < l) && !(l < k);
  }

  predicate IsIndexNamed(item: SchemaItem, table: string, column: string) {
    item.IndexItem? && SameLetters(item.table, table) && SameLetters(item.column, column)
  }

  // The first index on that column of that table.
  predicate IsIndexOn(schema: seq<SchemaItem>, table: string, column: string, item: SchemaItem) {
    exists k :: 0 <= k < |schema| && schema[k] == item && IsIndexNamed(schema[k], table, column)
                && forall j :: 0 <= j < k ==> !IsIndexNamed(schema[j], table, column)
  }

  predicate HasIndexOn(schema: seq<SchemaItem>, table: string, column: string) {
    exists k :: 0 <= k < |schema| && IsIndexNamed(schema[k], table, column)
  }

  lemma {:induction false} FindIndexFirst(schema: seq<SchemaItem>, table: string, column: string)
    ensures var r := FindIndexOn(schema, table, column); r.Some? ==> IsIndexOn(schema, table, column, r.value)
    ensures FindIndexOn(schema, table, column).None? ==> !HasIndexOn(schema, table, column)
  {
    hide SameName, SameLetters;
    if schema != [] {
      if schema[0].IndexItem? {
        SameNameIs(schema[0].table, table);
        SameNameIs(schema[0].column, column);
      }
      FindIndexFirst(schema[1..], table, column);
      if !IsIndexNamed(schema[0], table, column) && FindIndexOn(schema[1..], table, column).Some? {
        var rest := schema[1..];
        var k :| 0 <= k < |rest| && rest[k] == FindIndexOn(rest, table, column).value && IsIndexNamed(rest[k], table, column)
                 && forall j :: 0 <= j < k ==> !IsIndexNamed(rest[j], table, column);
        assert schema[k + 1] == rest[k];
        forall j | 0 <= j < k + 1 ensures !IsIndexNamed(schema[j], table, column) {
          if j != 0 { assert schema[j] == rest[j - 1]; }
        }
      }
      if FindIndexOn(schema, table, column).None? {
        forall k | 0 <= k < |schema| ensures !IsIndexNamed(schema[k], table, column) {
          if k != 0 { assert schema[k] == schema[1..][k - 1]; }
        }
      }
    }
  }

  // The lookup gives the first index on the column, and nothing only when there is none.
  lemma FindIndexOnIs(schema: seq<SchemaItem>, table: string, column: string)
    ensures FindIndexOn(schema, table, column).Some? <==> HasIndexOn(schema, table, column)
    ensures var r := FindIndexOn(schema, table, column); r.Some? ==> IsIndexOn(schema, table, column, r.value)
  {
    hide FindIndexOn, IsIndexNamed;
    FindIndexFirst(schema, table, column);
  }

  // ---- literals ----------------------------------------------------------------------------------------

  // Integers go with integer columns, texts and characters with text columns.
  predicate OfType(lit: Literal, t: DataType) {
    match lit
    case IntLit(_) => t == TypeInt
    case TextLit(_) => t == TypeText
    case CharLit(_) => t == TypeText
    case DoubleLit(_) => false
  }
}
