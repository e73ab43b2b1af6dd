// The decisions of the code generator (codegen.c): name resolution, the choice of an
// access path for each table, and what is read and emitted.
module Planner {
  import opened Common
  import opened Sql
  import opened Values
  import opened Machine
  import opened Relational
  import opened Optimizer

  // A column of the left (side 0) or right (side 1) table.
  datatype RCol = RCol(side: nat, idx: nat)

  // A `column OP literal` conjunct; op is the negated comparison, which jumps exactly
  // when the conjunct does not hold.
  datatype ResolvedCmp = ResolvedCmp(col: RCol, op: Opcode, lit: Literal)

  datatype Resolved = Resolved(col: RCol, dataType: DataType)

  // ---- columns -------------------------------------------------------------------------

  // One table: a qualifier is not looked at.
  function ResolveSingle(columns: seq<Column>, ref: ColumnRef): Option<Resolved> {
    match ColumnIndex(columns, ref.column)
    case None => None
    case Some(i) => Some(Resolved(RCol(0, i), columns[i].dataType))
  }

  function ResolveIn(t: TableScope, side: nat, name: string): Option<Resolved> {
    match ColumnIndex(t.columns, name)
    case None => None
    case Some(i) => Some(Resolved(RCol(side, i), t.columns[i].dataType))
  }

  function ResolveJoin(t1: TableScope, t2: TableScope, ref: ColumnRef): Option<Resolved> {
    match ref.table
    case Some(q) =>
      if Names(t1.name, t1.alias, q) then ResolveIn(t1, 0, ref.column)
      else if Names(t2.name, t2.alias, q) then ResolveIn(t2, 1, ref.column)
      else None
    case None =>
      if ResolveIn(t1, 0, ref.column).Some? then ResolveIn(t1, 0, ref.column) else ResolveIn(t2, 1, ref.column)
  }

  // The column resolver handed to the condition compiler.
  datatype Resolver = Single(columns: seq<Column>) | Joined(t1: TableScope, t2: TableScope)

  function ResolveColumn(r: Resolver, ref: ColumnRef): Option<Resolved> {
    match r
    case Single(columns) => ResolveSingle(columns, ref)
    case Joined(t1, t2) => ResolveJoin(t1, t2, ref)
  }

  predicate LiteralMatches(lit: Literal, t: DataType) {
    (t == TypeInt && lit.IntLit?) || (t == TypeText && (lit.TextLit? || lit.CharLit?))
  }

  // ---- conditions ------------------------------------------------------------------------

  function Flip(op: CompareOp): CompareOp {
    match op
    case CompareLt => CompareGt
    case CompareGt => CompareLt
    case CompareLeq => CompareGeq
    case CompareGeq => CompareLeq
    case CompareEq => CompareEq
  }

  function Negated(op: CompareOp): Opcode {
    match op
    case CompareEq => Op_Ne
    case CompareGt => Op_Le
    case CompareGeq => Op_Lt
    case CompareLt => Op_Ge
    case CompareLeq => Op_Gt
  }

  function ResolveColumnLiteral(r: Resolver, ref: ColumnRef, value: Expr, op: CompareOp): Option<ResolvedCmp> {
    if !value.Lit? then None
    else
      match ResolveColumn(r, ref)
      case None => None
      case Some(c) => if LiteralMatches(value.lit, c.dataType) then Some(ResolvedCmp(c.col, Negated(op), value.lit)) else None
  }

  function ResolveComparison(leaf: Cond, r: Resolver): Option<ResolvedCmp> {
    if !leaf.Compare? then None
    else if leaf.e1.Col? then ResolveColumnLiteral(r, leaf.e1.ref, leaf.e2, leaf.op)
    else if leaf.e2.Col? then ResolveColumnLiteral(r, leaf.e2.ref, leaf.e1, Flip(leaf.op))
    else None
  }

  function ResolveAll(list: seq<Cond>, r: Resolver): (cmps: Option<seq<ResolvedCmp>>)
    ensures cmps.Some? ==> |cmps.value| == |list|
    ensures cmps.Some? ==> forall i :: 0 <= i < |list| ==> ResolveComparison(list[i], r) == Some(cmps.value[i])
    ensures cmps.None? ==> exists i :: 0 <= i < |list| && ResolveComparison(list[i], r).None?
  {
    if list == [] then Some([])
    else
      match (ResolveAll(list[..|list| - 1], r), ResolveComparison(list[|list| - 1], r))
      case (Some(front), Some(last)) => Some(front + [last])
      case _ => None
  }

  function ResolveConjuncts(cond: Option<Cond>, r: Resolver): Option<seq<ResolvedCmp>> {
    match cond
    case None => Some([])
    case Some(c) => ResolveAll(Conjuncts(c), r)
  }

  // ---- access paths ------------------------------------------------------------------------

  // The comparison of which op is the negation, as a way to seek an index.
  function SeekOpcode(negated: Opcode): Option<Opcode> {
    match negated
    case Op_Ne => Some(Op_Seek)
    case Op_Le => Some(Op_SeekGt)
    case Op_Lt => Some(Op_SeekGe)
    case Op_Ge => Some(Op_SeekLt)
    case Op_Gt => Some(Op_SeekLe)
    case _ => None
  }

  predicate IsLower(negated: Opcode) {
    SeekOpcode(negated) == Some(Op_SeekGt) || SeekOpcode(negated) == Some(Op_SeekGe)
  }

  predicate IsUpper(negated: Opcode) {
    SeekOpcode(negated) == Some(Op_SeekLt) || SeekOpcode(negated) == Some(Op_SeekLe)
  }

  datatype RangePair = RangePair(lower: ResolvedCmp, upper: ResolvedCmp)

  // Two conjuncts on one column, a lower and an upper bound in either order.
  function DetectRangePair(cmps: seq<ResolvedCmp>): Option<RangePair> {
    if |cmps| != 2 || SeekOpcode(cmps[0].op).None? || SeekOpcode(cmps[1].op).None? then None
    else if cmps[0].col != cmps[1].col then None
    else if IsLower(cmps[0].op) && IsUpper(cmps[1].op) then Some(RangePair(cmps[0], cmps[1]))
    else if IsLower(cmps[1].op) && IsUpper(cmps[0].op) then Some(RangePair(cmps[1], cmps[0]))
    else None
  }

  // How one table is read. An index path consumes the conjuncts it is made from.
  datatype Access =
    | Scan
    | EqSeek(indexRoot: nat, cmp: ResolvedCmp)
    | RangeSeek(indexRoot: nat, cmp: ResolvedCmp, upper: Option<ResolvedCmp>)

  function SeekPlan(cmps: seq<ResolvedCmp>): Option<(ResolvedCmp, Option<ResolvedCmp>)> {
    if |cmps| == 1 && SeekOpcode(cmps[0].op).Some? then Some((cmps[0], None))
    else
      match DetectRangePair(cmps)
      case None => None
      case Some(p) => Some((p.lower, Some(p.upper)))
  }

  function PlanAccess(schema: seq<SchemaItem>, name: string, columns: seq<Column>, cmps: seq<ResolvedCmp>): Access {
    match SeekPlan(cmps)
    case None => Scan
    case Some(plan) =>
      if |columns| <= plan.0.col.idx then Scan
      else match FindIndexOn(schema, name, columns[plan.0.col.idx].name)
        case None => Scan
        case Some(item) =>
          if plan.0.op == Op_Ne then EqSeek(item.root, plan.0) else RangeSeek(item.root, plan.0, plan.1)
  }

  // ---- plans -------------------------------------------------------------------------------

  // One table of a query: its root, its columns, how it is read, and the conjuncts that
  // are checked row by row (none when an index path consumes them).
  datatype Source = Source(root: nat, columns: seq<Column>, access: Access, filter: seq<ResolvedCmp>)

  function MakeSource(schema: seq<SchemaItem>, name: string, root: nat, columns: seq<Column>,
                      cmps: seq<ResolvedCmp>): Source {
    var access := PlanAccess(schema, name, columns, cmps);
    Source(root, columns, access, if access.Scan? then cmps else [])
  }

  datatype Plan =
    | JoinPlan(s1: Source, s2: Source, pairs: seq<(nat, nat)>, top: seq<ResolvedCmp>, out: seq<RCol>)
    | TablePlan(s: Source, outIdx: seq<nat>)

  // Columns i, i + 1, ... of the left table that the right table also has.
  function SharedColumns(cols1: seq<Column>, cols2: seq<Column>, i: nat): (r: seq<(nat, nat)>)
    requires i <= |cols1|
    ensures forall k :: 0 <= k < |r| ==> r[k].0 < |cols1| && r[k].1 < |cols2|
    decreases |cols1| - i
  {
    if i == |cols1| then []
    else
      var rest := SharedColumns(cols1, cols2, i + 1);
      match ColumnIndex(cols2, cols1[i].name)
      case None => rest
      case Some(j) => [(i, j)] + rest
  }

  predicate IsShared(pairs: seq<(nat, nat)>, j: nat) {
    exists k :: 0 <= k < |pairs| && pairs[k].1 == j
  }

  function OwnColumns(n: nat, pairs: seq<(nat, nat)>, i: nat): (r: seq<RCol>)
    requires i <= n
    ensures forall k :: 0 <= k < |r| ==> r[k].side == 1 && r[k].idx < n
    decreases n - i
  {
    if i == n then []
    else (if IsShared(pairs, i) then [] else [RCol(1, i)]) + OwnColumns(n, pairs, i + 1)
  }

  // `*` over a join: the left columns, then the right columns that are not shared.
  function StarColumns(cols1: seq<Column>, cols2: seq<Column>, pairs: seq<(nat, nat)>): seq<RCol> {
    seq(|cols1|, i requires 0 <= i < |cols1| => RCol(0, i)) + OwnColumns(|cols2|, pairs, 0)
  }

  function ResolveOutputs(exprs: seq<Expr>, r: Resolver): Option<seq<RCol>> {
    if exprs == [] then Some([])
    else if !exprs[|exprs| - 1].Col? then None
    else
      match (ResolveOutputs(exprs[..|exprs| - 1], r), ResolveColumn(r, exprs[|exprs| - 1].ref))
      case (Some(front), Some(c)) => Some(front + [c.col])
      case _ => None
  }

  function SideCondition(s: Sra): Option<Cond> {
    if s.Select? then Some(s.cond) else None
  }

  function SideTable(s: Sra): Sra {
    if s.Select? then s.sra else s
  }

  function PlanJoin(schema: seq<SchemaItem>, s1: Sra, s2: Sra, exprs: seq<Expr>, cond: Option<Cond>): Option<Plan> {
    var b1, b2 := SideTable(s1), SideTable(s2);
    if !b1.Table? || !b2.Table? || FindTable(schema, b1.name).None? || FindTable(schema, b2.name).None? then None
    else
      var t1, t2 := FindTable(schema, b1.name).value, FindTable(schema, b2.name).value;
      var r := Joined(TableScope(b1.name, b1.alias, t1.columns), TableScope(b2.name, b2.alias, t2.columns));
      var pairs := SharedColumns(t1.columns, t2.columns, 0);
      var out := if IsStar(exprs) then Some(StarColumns(t1.columns, t2.columns, pairs)) else ResolveOutputs(exprs, r);
      match (out, ResolveConjuncts(SideCondition(s1), r), ResolveConjuncts(SideCondition(s2), r), ResolveConjuncts(cond, r))
      case (Some(out), Some(c1), Some(c2), Some(top)) =>
        Some(JoinPlan(MakeSource(schema, b1.name, t1.root, t1.columns, c1),
                      MakeSource(schema, b2.name, t2.root, t2.columns, c2), pairs, top, out))
      case _ => None
  }

  function PlanTable(schema: seq<SchemaItem>, t: Sra, exprs: seq<Expr>, cond: Option<Cond>): Option<Plan>
    requires t.Table?
  {
    match FindTable(schema, t.name)
    case None => None
    case Some(item) =>
      var r := Single(item.columns);
      var out := if IsStar(exprs) then Some(seq(|item.columns|, i requires 0 <= i < |item.columns| => RCol(0, i))) else ResolveOutputs(exprs, r);
      match (out, ResolveConjuncts(cond, r))
      case (Some(out), Some(cmps)) =>
        Some(TablePlan(MakeSource(schema, t.name, item.root, item.columns, cmps), seq(|out|, i requires 0 <= i < |out| => out[i].idx)))
      case _ => None
  }

  // What chidb_stmt_codegen makes of a SELECT statement; None is CHIDB_EINVALIDSQL.
  function PlanSelect(schema: seq<SchemaItem>, s: Sra): Option<Plan> {
    if !s.Project? then None
    else
      var cond, from := SideCondition(s.sra), SideTable(s.sra);
      if from.NaturalJoin? then PlanJoin(schema, from.sra1, from.sra2, s.exprs, cond)
      else if from.Table? then PlanTable(schema, from, s.exprs, cond)
      else None
  }
}
