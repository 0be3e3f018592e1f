/**
 The SQL the rule compiler emits, as terms, with SQLite's three-valued scalar semantics.
 Columns have no declared type, so no affinity conversion takes place.
 */
module CdlSql {
  import opened Common
  import opened CdlExpr

  datatype SqlValue = SNull | SInt(n: int) | SReal(r: real) | SText(s: string)

  /** A column reference, qualified by its table alias ("" when unqualified). */
  datatype Column = Column(table: string, name: string)

  type Row = map<Column, SqlValue>

  /** A row of one table, by column name. */
  type Record = map<string, SqlValue>

  datatype SqlCmp = SEq | SNe | SGt | SGe | SLt | SLe

  datatype SqlExpr =
    | Lit(v: SqlValue)
    | Col(column: Column)
    | Tuple(elems: seq<SqlExpr>)
    | NotX(x: SqlExpr)
    | NegX(x: SqlExpr)
    | IsNullX(x: SqlExpr, negated: bool)
    | AndX(l: SqlExpr, r: SqlExpr)
    | OrX(l: SqlExpr, r: SqlExpr)
    | InX(l: SqlExpr, r: SqlExpr)
    | CmpX(cmp: SqlCmp, l: SqlExpr, r: SqlExpr)
    | ArithX(arith: RingOp, l: SqlExpr, r: SqlExpr)
    | RealDivX(l: SqlExpr, r: SqlExpr)
    | CoalesceX(x: SqlExpr, default: SqlValue)

  /**
   Engine behaviour no meaning-preserving query may depend on: text read as a number or a truth value,
   the order of text, and which of several rows tied under ORDER BY comes first.
   */
  datatype Engine = Engine(
    textNumber: string -> real, textLess: (string, string) -> bool, firstOfTied: seq<Record> -> nat)

  type Truth = Option<bool>  // None is SQL's unknown

  predicate IsNumeric(v: SqlValue) { v.SInt? || v.SReal? }

  /** The exact number a numeric SQL value denotes. */
  function Exact(v: SqlValue): real
    requires IsNumeric(v)
  {
    if v.SInt? then v.n as real else v.r
  }

  function TruthOf(v: SqlValue, eng: Engine): Truth {
    match v
    case SNull => None
    case SInt(n) => Some(n != 0)
    case SReal(r) => Some(r != 0.0)
    case SText(s) => Some(eng.textNumber(s) != 0.0)
  }

  function FromTruth(t: Truth): SqlValue {
    match t case None => SNull case Some(b) => SInt(if b then 1 else 0)
  }

  function And3(a: Truth, b: Truth): Truth {
    if a == Some(false) || b == Some(false) then Some(false)
    else if a == None || b == None then None else Some(true)
  }

  function Or3(a: Truth, b: Truth): Truth {
    if a == Some(true) || b == Some(true) then Some(true)
    else if a == None || b == None then None else Some(false)
  }

  function Not3(a: Truth): Truth { match a case None => None case Some(b) => Some(!b) }

  /** SQLite's storage-class order: numbers below text, numbers compared exactly. */
  predicate SqlLess(a: SqlValue, b: SqlValue, eng: Engine) {
    if IsNumeric(a) && IsNumeric(b) then Exact(a) < Exact(b)
    else if a.SText? && b.SText? then eng.textLess(a.s, b.s)
    else IsNumeric(a) && b.SText?
  }

  predicate SqlSame(a: SqlValue, b: SqlValue) {
    if IsNumeric(a) && IsNumeric(b) then Exact(a) == Exact(b) else a == b
  }

  function Compare3(op: SqlCmp, a: SqlValue, b: SqlValue, eng: Engine): Truth {
    if a.SNull? || b.SNull? then None
    else Some(
      match op
      case SEq => SqlSame(a, b)
      case SNe => !SqlSame(a, b)
      case SGt => SqlLess(b, a, eng)
      case SGe => !SqlLess(a, b, eng)
      case SLt => SqlLess(a, b, eng)
      case SLe => !SqlLess(b, a, eng))
  }

  /** `x IN (...)`: the disjunction of the equalities; false over the empty list even for NULL. */
  function Member3(x: SqlValue, items: seq<SqlValue>, eng: Engine): Truth {
    if items == [] then Some(false)
    else Or3(Compare3(SEq, x, items[0], eng), Member3(x, items[1..], eng))
  }

  function CastReal(v: SqlValue, eng: Engine): real
    requires !v.SNull?
  {
    match v
    case SInt(n) => Float64(n) as real
    case SReal(r) => r
    case SText(s) => eng.textNumber(s)
  }

  /** Integer arithmetic that leaves int64 is redone in floating point. */
  function SqlArithmetic(op: RingOp, a: SqlValue, b: SqlValue, eng: Engine): SqlValue {
    if a.SNull? || b.SNull? then SNull
    else if a.SInt? && b.SInt? && IsInt64(ApplyInt(op, a.n, b.n)) then SInt(ApplyInt(op, a.n, b.n))
    else SReal(ApplyReal(op, CastReal(a, eng), CastReal(b, eng)))
  }

  function SqlNegate(v: SqlValue, eng: Engine): SqlValue {
    if v.SNull? then SNull
    else if v.SInt? && IsInt64(-v.n) then SInt(-v.n)
    else SReal(-CastReal(v, eng))
  }

  function SqlDivide(a: SqlValue, b: SqlValue, eng: Engine): SqlValue {
    if a.SNull? || b.SNull? || CastReal(b, eng) == 0.0 then SNull
    else SReal(CastReal(a, eng) / CastReal(b, eng))
  }

  function Lookup(row: Row, c: Column): SqlValue { if c in row then row[c] else SNull }

  /** The scalar value of an expression over one row; a parenthesised singleton is its element. */
  function SqlEval(e: SqlExpr, row: Row, eng: Engine): SqlValue
    decreases e, 0
  {
    match e
    case Lit(v) => v
    case Col(c) => Lookup(row, c)
    case Tuple(elems) => if |elems| == 1 then SqlEval(elems[0], row, eng) else SNull
    case NotX(x) => FromTruth(Not3(TruthOf(SqlEval(x, row, eng), eng)))
    case NegX(x) => SqlNegate(SqlEval(x, row, eng), eng)
    case IsNullX(x, negated) => SInt(if SqlEval(x, row, eng).SNull? != negated then 1 else 0)
    case AndX(l, r) => FromTruth(And3(TruthOf(SqlEval(l, row, eng), eng), TruthOf(SqlEval(r, row, eng), eng)))
    case OrX(l, r) => FromTruth(Or3(TruthOf(SqlEval(l, row, eng), eng), TruthOf(SqlEval(r, row, eng), eng)))
    case InX(l, r) =>
      FromTruth(Member3(SqlEval(l, row, eng), if r.Tuple? then SqlEvalAll(r.elems, row, eng) else [], eng))
    case CmpX(op, l, r) => FromTruth(Compare3(op, SqlEval(l, row, eng), SqlEval(r, row, eng), eng))
    case ArithX(op, l, r) => SqlArithmetic(op, SqlEval(l, row, eng), SqlEval(r, row, eng), eng)
    case RealDivX(l, r) => SqlDivide(SqlEval(l, row, eng), SqlEval(r, row, eng), eng)
    case CoalesceX(x, d) => var v := SqlEval(x, row, eng); if v.SNull? then d else v
  }

  function SqlEvalAll(es: seq<SqlExpr>, row: Row, eng: Engine): (vs: seq<SqlValue>)
    ensures |vs| == |es|
    ensures forall i :: 0 <= i < |es| ==> vs[i] == SqlEval(es[i], row, eng)
    decreases es, 1
  {
    if es == [] then [] else [SqlEval(es[0], row, eng)] + SqlEvalAll(es[1..], row, eng)
  }

  /** What SQLite accepts when it prepares the statement: known columns, and lists only as IN's right side. */
  predicate Prepares(e: SqlExpr, columns: set<Column>) {
    match e
    case Lit(_) => true
    case Col(c) => c in columns
    case Tuple(elems) => |elems| == 1 && Prepares(elems[0], columns)
    case NotX(x) => Prepares(x, columns)
    case NegX(x) => Prepares(x, columns)
    case IsNullX(x, _) => Prepares(x, columns)
    case AndX(l, r) => Prepares(l, columns) && Prepares(r, columns)
    case OrX(l, r) => Prepares(l, columns) && Prepares(r, columns)
    case InX(l, r) =>
      Prepares(l, columns) && r.Tuple? && forall i :: 0 <= i < |r.elems| ==> Prepares(r.elems[i], columns)
    case CmpX(_, l, r) => Prepares(l, columns) && Prepares(r, columns)
    case ArithX(_, l, r) => Prepares(l, columns) && Prepares(r, columns)
    case RealDivX(l, r) => Prepares(l, columns) && Prepares(r, columns)
    case CoalesceX(x, _) => Prepares(x, columns)
  }

  /** WHERE keeps a row only when its condition is true, not when it is unknown. */
  predicate Holds(e: SqlExpr, row: Row, eng: Engine) { TruthOf(SqlEval(e, row, eng), eng) == Some(true) }
}
