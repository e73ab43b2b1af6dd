// What a query means: relations, scopes and conditions, independent of how the
// query is compiled.
module Relational {
  import opened Common
  import opened Sql
  import opened Values
  import opened Trees

  // The tables a condition can talk about, and one row of each.
  datatype TableScope = TableScope(name: string, alias: Option<string>, columns: seq<Column>)

  type Scope = seq<TableScope>

  type Tuple = seq<Row>

  datatype Place = Place(table: nat, column: nat)

  // A relation also knows which columns `*` stands for.
  datatype Relation = Relation(scope: Scope, visible: seq<Place>, tuples: seq<Tuple>)

  predicate ValidPlace(scope: Scope, p: Place) {
    p.table < |scope| && p.column < |scope[p.table].columns|
  }

  predicate ValidTuple(scope: Scope, t: Tuple) {
    |t| == |scope| && forall k :: 0 <= k < |scope| ==> |t[k]| == |scope[k].columns|
  }

  // ---- name resolution ---------------------------------------------------------------

  // A qualified name belongs to the first table it names; an unqualified one to the
  // first table with such a column.
  function Resolve(scope: Scope, ref: ColumnRef): (r: Option<Place>)
    ensures r.Some? ==> ValidPlace(scope, r.value)
  {
    if scope == [] then None
    else
      var first := ColumnIndex(scope[0].columns, ref.column);
      if ref.table.Some? && Names(scope[0].name, scope[0].alias, ref.table.value) then
        if first.Some? then Some(Place(0, first.value)) else None
      else if ref.table.None? && first.Some? then Some(Place(0, first.value))
      else match Resolve(scope[1..], ref)
        case None => None
        case Some(p) => Some(Place(p.table + 1, p.column))
  }

  // ---- expressions and conditions ----------------------------------------------------

  predicate ExprScoped(scope: Scope, e: Expr) {
    match e
    case Col(ref) => Resolve(scope, ref).Some?
    case Func(_, a) => ExprScoped(scope, a)
    case Binary(_, a, b) => ExprScoped(scope, a) && ExprScoped(scope, b)
    case Neg(a) => ExprScoped(scope, a)
    case _ => true
  }

  predicate CondScoped(scope: Scope, c: Cond) {
    match c
    case Compare(_, a, b) => ExprScoped(scope, a) && ExprScoped(scope, b)
    case And(a, b) => CondScoped(scope, a) && CondScoped(scope, b)
    case Or(a, b) => CondScoped(scope, a) && CondScoped(scope, b)
    case Not(a) => CondScoped(scope, a)
    case In(a, _) => ExprScoped(scope, a)
  }

  function Calculate(op: Arithmetic, a: Value, b: Value): Value {
    match op
    case Plus => if a.Int? && b.Int? then Int(a.i + b.i) else Unspecified
    case Minus => if a.Int? && b.Int? then Int(a.i - b.i) else Unspecified
    case Multiply => if a.Int? && b.Int? then Int(a.i * b.i) else Unspecified
    case Divide => if a.Int? && b.Int? && b.i != 0 then Int(a.i / b.i) else Unspecified
    case Concat => if a.Str? && b.Str? then Str(a.s + b.s) else Unspecified
  }

  function Evaluate(scope: Scope, t: Tuple, e: Expr): Value
    requires ValidTuple(scope, t) && ExprScoped(scope, e)
  {
    match e
    case Lit(lit) => LiteralValue(lit)
    case Col(ref) => var p := Resolve(scope, ref).value; t[p.table][p.column]
    case NullTerm => Null
    case Id(_) => Unspecified
    case Func(_, _) => Unspecified
    case Binary(op, a, b) => Calculate(op, Evaluate(scope, t, a), Evaluate(scope, t, b))
    case Neg(a) => var v := Evaluate(scope, t, a); if v.Int? then Int(-v.i) else Unspecified
  }

  // Values of different kinds never compare; NULL compares with nothing.
  predicate CompareHolds(op: CompareOp, a: Value, b: Value) {
    Comparable(a, b) &&
    match op
    case CompareEq => Order(a, b) == 0
    case CompareLt => Order(a, b) < 0
    case CompareGt => Order(a, b) > 0
    case CompareLeq => Order(a, b) <= 0
    case CompareGeq => Order(a, b) >= 0
  }

  predicate Holds(scope: Scope, t: Tuple, c: Cond)
    requires ValidTuple(scope, t) && CondScoped(scope, c)
  {
    match c
    case Compare(op, a, b) => CompareHolds(op, Evaluate(scope, t, a), Evaluate(scope, t, b))
    case And(a, b) => Holds(scope, t, a) && Holds(scope, t, b)
    case Or(a, b) => Holds(scope, t, a) || Holds(scope, t, b)
    case Not(a) => !Holds(scope, t, a)
    case In(a, values) =>
      exists i :: 0 <= i < |values| && CompareHolds(CompareEq, Evaluate(scope, t, a), LiteralValue(values[i]))
  }

  // ---- operators ---------------------------------------------------------------------

  predicate ValidTuples(scope: Scope, ts: seq<Tuple>) {
    forall i :: 0 <= i < |ts| ==> ValidTuple(scope, ts[i])
  }

  predicate ValidPlaces(scope: Scope, ps: seq<Place>) {
    forall i :: 0 <= i < |ps| ==> ValidPlace(scope, ps[i])
  }

  predicate ValidRelation(r: Relation) {
    ValidTuples(r.scope, r.tuples) && ValidPlaces(r.scope, r.visible)
  }

  function Filter(scope: Scope, c: Cond, ts: seq<Tuple>): (r: seq<Tuple>)
    requires ValidTuples(scope, ts) && CondScoped(scope, c)
    ensures ValidTuples(scope, r)
  {
    if ts == [] then []
    else (if Holds(scope, ts[0], c) then [ts[0]] else []) + Filter(scope, c, ts[1..])
  }

  // A column pair that a natural join equates.
  datatype Pair = Pair(left: Place, right: Place)

  // Columns of table k of the left scope, from column i on, whose name the right
  // scope also has.
  function ColumnPairs(columns: seq<Column>, k: nat, i: nat, right: Scope): (r: seq<Pair>)
    requires i <= |columns|
    ensures forall j :: 0 <= j < |r| ==>
      r[j].left.table == k && r[j].left.column < |columns| && ValidPlace(right, r[j].right)
    decreases |columns| - i
  {
    if i == |columns| then []
    else
      var rest := ColumnPairs(columns, k, i + 1, right);
      match Resolve(right, ColumnRef(None, columns[i].name))
      case None => rest
      case Some(p) => [Pair(Place(k, i), p)] + rest
  }

  function JoinPairs(left: Scope, k: nat, right: Scope): (r: seq<Pair>)
    requires k <= |left|
    ensures forall j :: 0 <= j < |r| ==> ValidPlace(left, r[j].left) && ValidPlace(right, r[j].right)
    decreases |left| - k
  {
    if k == |left| then []
    else ColumnPairs(left[k].columns, k, 0, right) + JoinPairs(left, k + 1, right)
  }

  predicate ValidPairs(left: Scope, right: Scope, pairs: seq<Pair>) {
    forall j :: 0 <= j < |pairs| ==> ValidPlace(left, pairs[j].left) && ValidPlace(right, pairs[j].right)
  }

  predicate Joins(left: Scope, right: Scope, pairs: seq<Pair>, t: Tuple, u: Tuple)
    requires ValidPairs(left, right, pairs) && ValidTuple(left, t) && ValidTuple(right, u)
  {
    forall j :: 0 <= j < |pairs| ==>
      CompareHolds(CompareEq, t[pairs[j].left.table][pairs[j].left.column],
                              u[pairs[j].right.table][pairs[j].right.column])
  }

  function JoinOne(left: Scope, right: Scope, pairs: seq<Pair>, t: Tuple, us: seq<Tuple>): (r: seq<Tuple>)
    requires ValidPairs(left, right, pairs) && ValidTuple(left, t) && ValidTuples(right, us)
    ensures ValidTuples(left + right, r)
  {
    if us == [] then []
    else (if Joins(left, right, pairs, t, us[0]) then [t + us[0]] else []) + JoinOne(left, right, pairs, t, us[1..])
  }

  function JoinAll(left: Scope, right: Scope, pairs: seq<Pair>, ts: seq<Tuple>, us: seq<Tuple>): (r: seq<Tuple>)
    requires ValidPairs(left, right, pairs) && ValidTuples(left, ts) && ValidTuples(right, us)
    ensures ValidTuples(left + right, r)
  {
    if ts == [] then []
    else JoinOne(left, right, pairs, ts[0], us) + JoinAll(left, right, pairs, ts[1..], us)
  }

  predicate IsJoinColumn(pairs: seq<Pair>, p: Place) {
    exists j :: 0 <= j < |pairs| && pairs[j].right == p
  }

  // The right side's visible columns that are not join columns, moved behind the left scope.
  function Uncoalesced(pairs: seq<Pair>, visible: seq<Place>, left: Scope, right: Scope): (r: seq<Place>)
    requires ValidPlaces(right, visible)
    ensures ValidPlaces(left + right, r)
  {
    if visible == [] then []
    else (if IsJoinColumn(pairs, visible[0]) then [] else [Place(visible[0].table + |left|, visible[0].column)])
         + Uncoalesced(pairs, visible[1..], left, right)
  }

  function AllColumns(n: nat): seq<Place> {
    seq(n, i requires 0 <= i < n => Place(0, i))
  }

  function RowsOf(columns: seq<Column>, entries: seq<Entry>): (r: seq<Tuple>)
    ensures |r| == |entries|
    ensures forall k :: 0 <= k < |entries| ==> r[k] == [RowOf(columns, entries[k])]
  {
    seq(|entries|, k requires 0 <= k < |entries| => [RowOf(columns, entries[k])])
  }

  // ---- queries -----------------------------------------------------------------------

  // The relation a FROM/WHERE tree denotes over the tables of a file.
  function Denote(schema: seq<SchemaItem>, store: map<nat, Tree>, s: Sra): (d: Option<Relation>)
    ensures d.Some? ==> ValidRelation(d.value)
  {
    match s
    case Table(name, alias) =>
      (match FindTable(schema, name)
       case None => None
       case Some(item) =>
         if item.root !in store then None
         else Some(Relation([TableScope(name, alias, item.columns)], AllColumns(|item.columns|),
                            RowsOf(item.columns, Entries(store[item.root])))))
    case Select(inner, cond) =>
      (match Denote(schema, store, inner)
       case None => None
       case Some(r) =>
         if CondScoped(r.scope, cond)
         then Some(r.(tuples := Filter(r.scope, cond, r.tuples))) else None)
    case NaturalJoin(s1, s2) =>
      (match (Denote(schema, store, s1), Denote(schema, store, s2))
       case (Some(a), Some(b)) =>
         var pairs := JoinPairs(a.scope, 0, b.scope);
         Some(Relation(a.scope + b.scope, a.visible + Uncoalesced(pairs, b.visible, a.scope, b.scope),
                       JoinAll(a.scope, b.scope, pairs, a.tuples, b.tuples)))
       case _ => None)
    case Project(_, _) => None
    case Other => None
  }

  predicate ExprsScoped(r: Relation, exprs: seq<Expr>) {
    IsStar(exprs) || forall i :: 0 <= i < |exprs| ==> ExprScoped(r.scope, exprs[i])
  }

  function At(scope: Scope, t: Tuple, p: Place): Value
    requires ValidTuple(scope, t) && ValidPlace(scope, p)
  {
    t[p.table][p.column]
  }

  // One output row.
  function Output(r: Relation, exprs: seq<Expr>, t: Tuple): Row
    requires ValidTuple(r.scope, t) && ValidPlaces(r.scope, r.visible) && ExprsScoped(r, exprs)
  {
    if IsStar(exprs) then
      seq(|r.visible|, i requires 0 <= i < |r.visible| => At(r.scope, t, r.visible[i]))
    else
      seq(|exprs|, i requires 0 <= i < |exprs| => Evaluate(r.scope, t, exprs[i]))
  }

  function Outputs(r: Relation, exprs: seq<Expr>, ts: seq<Tuple>): seq<Row>
    requires ValidTuples(r.scope, ts) && ValidPlaces(r.scope, r.visible) && ExprsScoped(r, exprs)
  {
    if ts == [] then [] else [Output(r, exprs, ts[0])] + Outputs(r, exprs, ts[1..])
  }

  // The rows a SELECT statement asks for.
  function DenoteQuery(schema: seq<SchemaItem>, store: map<nat, Tree>, s: Sra): Option<seq<Row>> {
    match s
    case Project(inner, exprs) =>
      (match Denote(schema, store, inner)
       case None => None
       case Some(r) => if ExprsScoped(r, exprs) then Some(Outputs(r, exprs, r.tuples)) else None)
    case _ => None
  }
}
