// The statement trees handed to the optimizer and the code generator, and the schema.
module Sql {
  import opened Common

  type text = seq<byte>

  datatype DataType = TypeInt | TypeDouble | TypeChar | TypeText

  datatype Literal = IntLit(i: int) | DoubleLit(r: real) | CharLit(c: byte) | TextLit(s: text)

  datatype ColumnRef = ColumnRef(table: Option<string>, column: string)

  datatype Arithmetic = Plus | Minus | Multiply | Divide | Concat

  datatype Expr =
    | Lit(lit: Literal)
    | Col(ref: ColumnRef)
    | NullTerm
    | Id(name: string)
    | Func(name: string, arg: Expr)
    | Binary(op: Arithmetic, e1: Expr, e2: Expr)
    | Neg(e: Expr)

  datatype CompareOp = CompareEq | CompareLt | CompareGt | CompareLeq | CompareGeq

  datatype Cond =
    | Compare(op: CompareOp, e1: Expr, e2: Expr)
    | And(c1: Cond, c2: Cond)
    | Or(c1: Cond, c2: Cond)
    | Not(c: Cond)
    | In(e: Expr, values: seq<Literal>)

  // Relational algebra trees. Other stands for the operators that are parsed but
  // not compiled (theta and outer joins, set operations).
  datatype Sra =
    | Table(name: string, alias: Option<string>)
    | Project(sra: Sra, exprs: seq<Expr>)
    | Select(sra: Sra, cond: Cond)
    | NaturalJoin(sra1: Sra, sra2: Sra)
    | Other

  datatype Column = Column(name: string, dataType: DataType, primaryKey: bool)

  datatype SchemaItem =
    | TableItem(name: string, root: nat, key: nat, columns: seq<Column>)
    | IndexItem(name: string, root: nat, key: nat, table: string, column: string)

  // ---- names -------------------------------------------------------------------------

  function Fold(c: char): char {
    if 'A' <= c <= 'Z' then (c as int + 32) as char else c
  }

  // strcasecmp(a, b) == 0
  predicate SameName(a: string, b: string) {
    |a| == |b| && forall i :: 0 <= i < |a| ==> Fold(a[i]) == Fold(b[i])
  }

  // The name or, if there is one, the alias of a table reference.
  predicate Names(name: string, alias: Option<string>, qualifier: string) {
    SameName(qualifier, name) || (alias.Some? && SameName(qualifier, alias.value))
  }

  function ColumnIndex(columns: seq<Column>, name: string): (r: Option<nat>)
    ensures r.Some? ==> r.value < |columns| && SameName(columns[r.value].name, name)
    ensures r.None? ==> forall i :: 0 <= i < |columns| ==> !SameName(columns[i].name, name)
  {
    if columns == [] then None
    else if SameName(columns[0].name, name) then Some(0)
    else match ColumnIndex(columns[1..], name)
      case None => None
      case Some(i) => Some(i + 1)
  }

  // ---- schema lookups ----------------------------------------------------------------

  function FindTable(schema: seq<SchemaItem>, name: string): (r: Option<SchemaItem>)
    ensures r.Some? ==> r.value in schema && r.value.TableItem?
  {
    if schema == [] then None
    else if schema[0].TableItem? && SameName(schema[0].name, name) then Some(schema[0])
    else FindTable(schema[1..], name)
  }

  function FindIndexOn(schema: seq<SchemaItem>, table: string, column: string): (r: Option<SchemaItem>)
    ensures r.Some? ==> r.value in schema && r.value.IndexItem?
    ensures r.Some? ==> SameName(r.value.table, table) && SameName(r.value.column, column)
  {
    if schema == [] then None
    else if schema[0].IndexItem? && SameName(schema[0].table, table) && SameName(schema[0].column, column)
    then Some(schema[0])
    else FindIndexOn(schema[1..], table, column)
  }

  // `SELECT *`: a single column reference named "*".
  predicate IsStar(exprs: seq<Expr>) {
    |exprs| == 1 && exprs[0].Col? && exprs[0].ref.column == "*"
  }
}
