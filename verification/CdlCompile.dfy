/** The expression compiler (detect/expr/tosql.go) and the proof that it preserves meaning. */
module CdlCompile {
  import opened Common
  import opened CdlExpr
  import opened CdlSql

  type FuncSQL = seq<SqlExpr> -> Result<SqlExpr>

  datatype Target = Target(cols: Path -> Result<SqlExpr>, funcs: map<string, FuncSQL>)

  predicate IsIntegral(r: real) { r == r.Floor as real }

  /** Floats are printed without an exponent or a trailing ".0", so an integral one reads back as an INTEGER. */
  function LiteralSQL(v: Value): Result<SqlExpr> {
    match v
    case Null => Ok(Lit(SNull))
    case Int(n) => Ok(Lit(SInt(n)))
    case Float(r) => Ok(Lit(if IsIntegral(r) && IsInt64(r.Floor) then SInt(r.Floor) else SReal(r)))
    case Bool(b) => Ok(Lit(SInt(if b then 1 else 0)))
    case Str(s) => Ok(Lit(SText(s)))
    case List(_) => Err
    case Map(_) => Err
  }

  predicate IsNullLiteral(n: Node) { n == Literal(Null) }

  function SqlCompare(c: CmpOp): SqlCmp { match c case Gt => SGt case Ge => SGe case Lt => SLt case Le => SLe }

  function BinarySQL(op: BinaryOp, l: Node, r: Node, ls: SqlExpr, rs: SqlExpr): SqlExpr {
    if (op.Eq? || op.Ne?) && (IsNullLiteral(l) || IsNullLiteral(r)) then
      IsNullX(if IsNullLiteral(l) then rs else ls, op.Ne?)
    else
      match op
      case And => AndX(ls, rs)
      case Or => OrX(ls, rs)
      case In => InX(ls, rs)
      case Eq => CmpX(SEq, ls, rs)
      case Ne => CmpX(SNe, ls, rs)
      case Compare(c) => CmpX(SqlCompare(c), ls, rs)
      case Arith(a) => if a.Div? then RealDivX(ls, rs) else ArithX(a.ring, ls, rs)
  }

  function ToSQL(node: Node, t: Target): Result<SqlExpr>
    decreases node, 0
  {
    match node
    case Literal(v) => LiteralSQL(v)
    case Ident(path) => t.cols(path)
    case ListLit(elems) =>
      (match ToSQLAll(elems, t) case Err => Err case Ok(ss) => Ok(Tuple(ss)))
    case Call(fn, args) =>
      if fn !in t.funcs then Err
      else (match ToSQLAll(args, t) case Err => Err case Ok(ss) => t.funcs[fn](ss))
    case Unary(op, x) =>
      (match ToSQL(x, t) case Err => Err case Ok(s) => Ok(if op.Not? then NotX(s) else NegX(s)))
    case Binary(op, l, r) =>
      match ToSQL(l, t)
      case Err => Err
      case Ok(ls) => match ToSQL(r, t) case Err => Err case Ok(rs) => Ok(BinarySQL(op, l, r, ls, rs))
  }

  function ToSQLAll(nodes: seq<Node>, t: Target): (r: Result<seq<SqlExpr>>)
    ensures r.Ok? ==> |r.value| == |nodes|
    ensures r.Ok? <==> forall i :: 0 <= i < |nodes| ==> ToSQL(nodes[i], t).Ok?
    ensures r.Ok? ==> forall i :: 0 <= i < |nodes| ==> ToSQL(nodes[i], t) == Ok(r.value[i])
    decreases nodes, 1
  {
    if nodes == [] then Ok([])
    else
      match ToSQL(nodes[0], t)
      case Err => Err
      case Ok(s) => match ToSQLAll(nodes[1..], t) case Err => Err case Ok(ss) => Ok([s] + ss)
  }

  method CompileAll(nodes: seq<Node>, t: Target) returns (r: Result<seq<SqlExpr>>)
    ensures r == ToSQLAll(nodes, t)
    decreases nodes, 1
  {
    var parts: seq<SqlExpr> := [];
    for i := 0 to |nodes|
      invariant |parts| == i && forall j :: 0 <= j < i ==> ToSQL(nodes[j], t) == Ok(parts[j])
    {
      var s := CompileExpr(nodes[i], t);
      if s.Err? { return Err; }
      parts := parts + [s.value];
    }
    assert parts == ToSQLAll(nodes, t).value;
    return Ok(parts);
  }

  /** ToSQL, with the list and call cases filling a slice in a loop. */
  method CompileExpr(node: Node, t: Target) returns (r: Result<SqlExpr>)
    ensures r == ToSQL(node, t)
    decreases node, 0
  {
    match node
    case Literal(v) => return LiteralSQL(v);
    case Ident(path) => return t.cols(path);
    case ListLit(elems) =>
      var parts := CompileAll(elems, t);
      return if parts.Err? then Err else Ok(Tuple(parts.value));
    case Call(fn, args) =>
      if fn !in t.funcs { return Err; }
      var parts := CompileAll(args, t);
      return if parts.Err? then Err else t.funcs[fn](parts.value);
    case Unary(op, x) =>
      var s := CompileExpr(x, t);
      return if s.Err? then Err else Ok(if op.Not? then NotX(s.value) else NegX(s.value));
    case Binary(op, l, r) =>
      var ls := CompileExpr(l, t);
      if ls.Err? { return Err; }
      var rs := CompileExpr(r, t);
      return if rs.Err? then Err else Ok(BinarySQL(op, l, r, ls.value, rs.value));
  }

  // ----- what it means for a SQL value to stand for a Go value -----

  /** Booleans are 1/0; an integral float may be an INTEGER of the same magnitude. */
  predicate Encodes(sv: SqlValue, v: Value) {
    match v
    case Null => sv == SNull
    case Bool(b) => sv == SInt(if b then 1 else 0)
    case Int(n) => sv == SInt(n)
    case Float(r) => IsNumeric(sv) && Exact(sv) == r
    case Str(s) => sv == SText(s)
    case List(_) => false
    case Map(_) => false
  }

  predicate Represents(e: SqlExpr, v: Value, row: Row, eng: Engine)
    decreases v
  {
    if v.List? then
      e.Tuple? && |e.elems| == |v.items| &&
      forall i :: 0 <= i < |v.items| ==> Represents(e.elems[i], v.items[i], row, eng)
    else Encodes(SqlEval(e, row, eng), v)
  }

  // ----- the conditions under which the two executions agree -----

  predicate IsScalar(v: Value) { !v.List? && !v.Map? }

  function ExactValue(v: Value): real
    requires IsNumber(v)
  {
    if v.Int? then v.n as real else v.r
  }

  /** A number float64 holds exactly, as every Go float64 is. */
  predicate Representable(v: Value)
    requires IsNumber(v)
  {
    if v.Int? then Float64(v.n) == v.n
    else if IsIntegral(v.r) then Float64(v.r.Floor) == v.r.Floor
    else -TWO53 as real < v.r < TWO53 as real
  }

  /** Floats are float64 values, and the conversion to float64 does not merge the two numbers. */
  predicate Separated(a: Value, b: Value)
    requires IsNumber(a) && IsNumber(b)
  {
    && (a.Float? ==> Representable(a)) && (b.Float? ==> Representable(b))
    && (ExactValue(a) == ExactValue(b) || AsFloat(a) != AsFloat(b))
  }

  /** Non-null scalars, numbers that stay apart, and no bool against the number that encodes it. */
  predicate Comparable(a: Value, b: Value) {
    && IsScalar(a) && IsScalar(b) && !a.Null? && !b.Null?
    && (IsNumber(a) && IsNumber(b) ==> Separated(a, b))
    && (a.Bool? && IsNumber(b) ==> ExactValue(b) != (if a.b then 1.0 else 0.0))
    && (b.Bool? && IsNumber(a) ==> ExactValue(a) != (if b.b then 1.0 else 0.0))
  }

  /** int64 arithmetic does not wrap; mixed arithmetic and division meet only numbers float64 holds. */
  predicate ArithAgrees(op: ArithOp, a: Value, b: Value) {
    IsNumber(a) && IsNumber(b) ==>
      if op.Div? then (a.Float? ==> Representable(a)) && (b.Float? ==> Representable(b))
      else if a.Int? && b.Int? then IsInt64(ApplyInt(op.ring, a.n, b.n))
      else Representable(a) && Representable(b)
  }

  /** The elements `in` looks at, up to and including the first match, are comparable with `l`. */
  predicate MemberAgrees(l: Value, items: seq<Value>) {
    items == [] || (Comparable(l, items[0]) && (ValuesEqual(l, items[0]) == Ok(true) || MemberAgrees(l, items[1..])))
  }

  predicate BinaryAgrees(op: BinaryOp, l: Node, r: Node, lv: Value, rv: Value) {
    match op
    case And => true
    case Or => true
    case Arith(a) => ArithAgrees(a, lv, rv)
    case Compare(_) => IsNumber(lv) && IsNumber(rv) ==> Separated(lv, rv)
    case In => rv.List? ==> MemberAgrees(lv, rv.items)
    case _ => // == and !=
      if IsNullLiteral(l) then IsScalar(rv) else if IsNullLiteral(r) then IsScalar(lv) else Comparable(lv, rv)
  }

  /** Which identifiers and which calls both sides are known to read alike, in terms of the Go side only. */
  datatype Scope = Scope(ident: Path -> bool, call: (string, seq<Node>) -> bool)

  /**
   Every value Eval consults, following its short-circuits, is in scope; nothing but a null literal
   meets null; numbers stay exact.
   */
  predicate Consistent(node: Node, ctx: Context, scope: Scope) {
    match node
    case Literal(_) => true
    case Ident(path) => scope.ident(path)
    case ListLit(elems) => forall i :: 0 <= i < |elems| ==> Consistent(elems[i], ctx, scope)
    case Call(fn, args) => scope.call(fn, args) && forall i :: 0 <= i < |args| ==> Consistent(args[i], ctx, scope)
    case Unary(op, x) => Consistent(x, ctx, scope) && (op.Neg? ==> NegAgrees(Eval(x, ctx)))
    case Binary(op, l, r) =>
      && Consistent(l, ctx, scope)
      && ((op.And? || op.Or?) ==> (Eval(l, ctx) == Ok(Bool(op.And?)) ==> Consistent(r, ctx, scope)))
      && (!op.And? && !op.Or? ==>
            && Consistent(r, ctx, scope)
            && (Eval(l, ctx).Ok? && Eval(r, ctx).Ok? ==>
                  BinaryAgrees(op, l, r, Eval(l, ctx).value, Eval(r, ctx).value)))
  }

  predicate NegAgrees(r: Result<Value>) {
    match r
    case Ok(Int(n)) => IsInt64(-n)
    case Ok(Float(x)) => Representable(Float(x))
    case _ => true
  }

  predicate IdentAgrees(path: Path, ctx: Context, t: Target, row: Row, eng: Engine) {
    ctx.env(path).Ok? && t.cols(path).Ok? ==> Represents(t.cols(path).value, ctx.env(path).value, row, eng)
  }

  predicate CallAgrees(fn: string, args: seq<Node>, ctx: Context, t: Target, row: Row, eng: Engine) {
    var vs, ss := EvalAll(args, ctx), ToSQLAll(args, t);
    fn in ctx.funcs && fn in t.funcs && vs.Ok? && ss.Ok? &&
    ctx.funcs[fn](vs.value).Ok? && t.funcs[fn](ss.value).Ok? ==>
      Represents(t.funcs[fn](ss.value).value, ctx.funcs[fn](vs.value).value, row, eng)
  }

  predicate ArgsRepresented(args: seq<Node>, ctx: Context, t: Target, row: Row, eng: Engine) {
    var vs, ss := EvalAll(args, ctx), ToSQLAll(args, t);
    vs.Ok? && ss.Ok? && forall i :: 0 <= i < |args| ==> Represents(ss.value[i], vs.value[i], row, eng)
  }

  /** The two function registries agree on every call the scope admits, whatever the environments. */
  ghost predicate FunctionsAgree(funcs: map<string, Func>, fsql: map<string, FuncSQL>,
      call: (string, seq<Node>) -> bool, eng: Engine) {
    forall fn, args, env, cols, row ::
      call(fn, args) && ArgsRepresented(args, Context(env, funcs), Target(cols, fsql), row, eng) ==>
        CallAgrees(fn, args, Context(env, funcs), Target(cols, fsql), row, eng)
  }

  /** The two environments agree on every identifier the scope admits. */
  ghost predicate Linked(scope: Scope, ctx: Context, t: Target, row: Row, eng: Engine) {
    && (forall p :: scope.ident(p) ==> IdentAgrees(p, ctx, t, row, eng))
    && FunctionsAgree(ctx.funcs, t.funcs, scope.call, eng)
  }

  // ----- proof -----

  /** Rounding an integer never carries it past a float64. */
  lemma RoundsToward(n: int, r: real)
    requires Representable(Float(r))
    ensures n as real <= r ==> Float64(n) as real <= r
    ensures r <= n as real ==> r <= Float64(n) as real
  {
    var f := r.Floor;
    if n as real <= r { Float64Monotone(n, f); } else { Float64Monotone(f + 1, n); }
    if IsIntegral(r) { 
      if f <= n { Float64Monotone(f, n); }
    } else {
      Float64Exact(f);
      Float64Exact(f + 1);
    }
  }

  lemma FloatOrder(a: Value, b: Value)
    requires IsNumber(a) && IsNumber(b) && Separated(a, b)
    ensures AsFloat(a) == AsFloat(b) <==> ExactValue(a) == ExactValue(b)
    ensures AsFloat(a) < AsFloat(b) <==> ExactValue(a) < ExactValue(b)
  {
    if a.Int? && b.Int? {
      if a.n <= b.n { Float64Monotone(a.n, b.n); } else { Float64Monotone(b.n, a.n); }
    } else if a.Int? {
      RoundsToward(a.n, b.r);
    } else if b.Int? {
      RoundsToward(b.n, a.r);
    }
  }

  lemma EqualPreserved(a: Value, b: Value, sa: SqlValue, sb: SqlValue, eng: Engine)
    requires Comparable(a, b) && Encodes(sa, a) && Encodes(sb, b)
    ensures ValuesEqual(a, b).Ok? && Compare3(SEq, sa, sb, eng) == Some(ValuesEqual(a, b).value)
  {
    if IsNumber(a) && IsNumber(b) { FloatOrder(a, b); }
  }

  /** Comparable is not just enough for `==` to mean the same on both sides, it is exactly what is needed. */
  lemma EqualityAgreesExactly(a: Value, b: Value, sa: SqlValue, sb: SqlValue, eng: Engine)
    requires IsScalar(a) && IsScalar(b) && Encodes(sa, a) && Encodes(sb, b)
    requires (a.Float? ==> Representable(a)) && (b.Float? ==> Representable(b))
    ensures Compare3(SEq, sa, sb, eng) == Some(ValuesEqual(a, b).value) <==> Comparable(a, b)
  {
    if Comparable(a, b) { EqualPreserved(a, b, sa, sb, eng); }
  }

  lemma {:induction false} MemberPreserved(l: Value, items: seq<Value>, sl: SqlValue, ss: seq<SqlValue>, eng: Engine)
    requires MemberAgrees(l, items) && (items != [] ==> Encodes(sl, l)) && |ss| == |items|
    requires forall i :: 0 <= i < |items| && IsScalar(items[i]) ==> Encodes(ss[i], items[i])
    ensures Member(l, items).Ok? && Member3(sl, ss, eng) == Some(Member(l, items).value)
  {
    if items != [] {
      EqualPreserved(l, items[0], sl, ss[0], eng);
      if ValuesEqual(l, items[0]) != Ok(true) {
        MemberPreserved(l, items[1..], sl, ss[1..], eng);
      }
    }
  }

  lemma CastPreserved(a: Value, sa: SqlValue, eng: Engine)
    requires IsNumber(a) && Encodes(sa, a) && (a.Float? ==> Representable(a))
    ensures CastReal(sa, eng) == AsFloat(a)
    ensures Representable(a) ==> CastReal(sa, eng) == ExactValue(a) && Exact(sa) == ExactValue(a)
  {}

  lemma ApplyIntIsReal(op: RingOp, m: int, n: int)
    ensures ApplyInt(op, m, n) as real == ApplyReal(op, m as real, n as real)
  {}

  lemma WrapInRange(n: int)
    requires IsInt64(n)
    ensures Wrap64(n) == n
  {}

  lemma SqlArithExact(op: RingOp, sa: SqlValue, sb: SqlValue, eng: Engine)
    requires IsNumeric(sa) && IsNumeric(sb) && CastReal(sa, eng) == Exact(sa) && CastReal(sb, eng) == Exact(sb)
    ensures IsNumeric(SqlArithmetic(op, sa, sb, eng))
    ensures Exact(SqlArithmetic(op, sa, sb, eng)) == ApplyReal(op, CastReal(sa, eng), CastReal(sb, eng))
  {
    if sa.SInt? && sb.SInt? { ApplyIntIsReal(op, sa.n, sb.n); }
  }

  lemma ArithPreserved(op: RingOp, a: Value, b: Value, sa: SqlValue, sb: SqlValue, eng: Engine)
    requires Encodes(sa, a) && Encodes(sb, b) && ArithAgrees(Ring(op), a, b) && IsNumber(a) && IsNumber(b)
    ensures Arithmetic(Ring(op), a, b).Ok?
    ensures Encodes(SqlArithmetic(op, sa, sb, eng), Arithmetic(Ring(op), a, b).value)
  {
    if a.Int? && b.Int? {
      WrapInRange(ApplyInt(op, a.n, b.n));
    } else {
      CastPreserved(a, sa, eng);
      CastPreserved(b, sb, eng);
      SqlArithExact(op, sa, sb, eng);
    }
  }

  lemma DivPreserved(a: Value, b: Value, sa: SqlValue, sb: SqlValue, eng: Engine)
    requires Encodes(sa, a) && Encodes(sb, b) && ArithAgrees(Div, a, b) && Arithmetic(Div, a, b).Ok?
    ensures Encodes(SqlDivide(sa, sb, eng), Arithmetic(Div, a, b).value)
  {
    CastPreserved(a, sa, eng);
    CastPreserved(b, sb, eng);
  }

  lemma NegPreserved(a: Value, sa: SqlValue, eng: Engine)
    requires Encodes(sa, a) && NegAgrees(Ok(a)) && EvalUnary(Neg, a).Ok?
    ensures Encodes(SqlNegate(sa, eng), EvalUnary(Neg, a).value)
  {
    if a.Int? { WrapInRange(-a.n); } else { CastPreserved(a, sa, eng); }
  }

  lemma ComparePreserved(c: CmpOp, a: Value, b: Value, sa: SqlValue, sb: SqlValue, eng: Engine)
    requires IsNumber(a) && IsNumber(b) && Separated(a, b) && Encodes(sa, a) && Encodes(sb, b)
    ensures CompareNumeric(c, a, b).Ok?
    ensures Encodes(FromTruth(Compare3(SqlCompare(c), sa, sb, eng)), CompareNumeric(c, a, b).value)
  {
    FloatOrder(a, b);
  }

  lemma InPreserved(l: Value, r: Value, ls: SqlExpr, rs: SqlExpr, row: Row, eng: Engine)
    requires Represents(ls, l, row, eng) && Represents(rs, r, row, eng)
    requires r.List? && MemberAgrees(l, r.items)
    ensures Member(l, r.items).Ok?
    ensures SqlEval(InX(ls, rs), row, eng) == SInt(if Member(l, r.items).value then 1 else 0)
  {
    var ss := SqlEvalAll(rs.elems, row, eng);
    forall i | 0 <= i < |r.items| && IsScalar(r.items[i]) ensures Encodes(ss[i], r.items[i]) {
      assert Represents(rs.elems[i], r.items[i], row, eng);
    }
    MemberPreserved(l, r.items, SqlEval(ls, row, eng), ss, eng);
  }

  lemma EqualityPreserved(op: BinaryOp, l: Node, r: Node, lv: Value, rv: Value, ls: SqlExpr, rs: SqlExpr, row: Row,
      eng: Engine)
    requires op.Eq? || op.Ne?
    requires Represents(ls, lv, row, eng) && Represents(rs, rv, row, eng) && BinaryAgrees(op, l, r, lv, rv)
    requires (IsNullLiteral(l) ==> lv == Null) && (IsNullLiteral(r) ==> rv == Null)
    ensures EvalBinary(op, lv, rv).Ok?
    ensures Encodes(SqlEval(BinarySQL(op, l, r, ls, rs), row, eng), EvalBinary(op, lv, rv).value)
  {
    if !IsNullLiteral(l) && !IsNullLiteral(r) {
      EqualPreserved(lv, rv, SqlEval(ls, row, eng), SqlEval(rs, row, eng), eng);
    }
  }

  lemma ArithSqlPreserved(op: ArithOp, lv: Value, rv: Value, ls: SqlExpr, rs: SqlExpr, row: Row, eng: Engine)
    requires Represents(ls, lv, row, eng) && Represents(rs, rv, row, eng)
    requires Arithmetic(op, lv, rv).Ok? && ArithAgrees(op, lv, rv)
    ensures op.Div? ==> Encodes(SqlEval(RealDivX(ls, rs), row, eng), Arithmetic(op, lv, rv).value)
    ensures op.Ring? ==> Encodes(SqlEval(ArithX(op.ring, ls, rs), row, eng), Arithmetic(op, lv, rv).value)
  {
    var sl, sr := SqlEval(ls, row, eng), SqlEval(rs, row, eng);
    if op.Div? { DivPreserved(lv, rv, sl, sr, eng); } else { ArithPreserved(op.ring, lv, rv, sl, sr, eng); }
  }

  lemma BinaryPreserved(op: BinaryOp, l: Node, r: Node, lv: Value, rv: Value, ls: SqlExpr, rs: SqlExpr, row: Row,
      eng: Engine)
    requires !op.And? && !op.Or?
    requires Represents(ls, lv, row, eng) && Represents(rs, rv, row, eng)
    requires EvalBinary(op, lv, rv).Ok? && BinaryAgrees(op, l, r, lv, rv)
    requires (IsNullLiteral(l) ==> lv == Null) && (IsNullLiteral(r) ==> rv == Null)
    ensures Encodes(SqlEval(BinarySQL(op, l, r, ls, rs), row, eng), EvalBinary(op, lv, rv).value)
  {
    var sl, sr := SqlEval(ls, row, eng), SqlEval(rs, row, eng);
    match op {
      case Arith(a) => ArithSqlPreserved(a, lv, rv, ls, rs, row, eng);
      case Compare(c) => ComparePreserved(c, lv, rv, sl, sr, eng);
      case In => InPreserved(lv, rv, ls, rs, row, eng);
      case _ => EqualityPreserved(op, l, r, lv, rv, ls, rs, row, eng);
    }
  }

  /** `0 AND NULL` is 0 and `1 OR NULL` is 1: an unconsulted right operand cannot matter. */
  lemma ShortCircuitPreserved(op: BinaryOp, l: Node, r: Node, ctx: Context, t: Target, row: Row, eng: Engine)
    requires op.And? || op.Or?
    requires Eval(Binary(op, l, r), ctx).Ok? && ToSQL(l, t).Ok? && ToSQL(r, t).Ok?
    requires Represents(ToSQL(l, t).value, Eval(l, ctx).value, row, eng)
    requires Eval(l, ctx) == Ok(Bool(op.And?)) ==>
      Eval(r, ctx).Ok? && Represents(ToSQL(r, t).value, Eval(r, ctx).value, row, eng)
    ensures Encodes(SqlEval(BinarySQL(op, l, r, ToSQL(l, t).value, ToSQL(r, t).value), row, eng),
      Eval(Binary(op, l, r), ctx).value)
  {}

  lemma {:induction false} AllPreserved(nodes: seq<Node>, ctx: Context, scope: Scope, t: Target, row: Row, eng: Engine)
    requires EvalAll(nodes, ctx).Ok? && ToSQLAll(nodes, t).Ok?
    requires Linked(scope, ctx, t, row, eng)
    requires forall i :: 0 <= i < |nodes| ==> Consistent(nodes[i], ctx, scope)
    ensures forall i :: 0 <= i < |nodes| ==>
      Represents(ToSQLAll(nodes, t).value[i], EvalAll(nodes, ctx).value[i], row, eng)
    decreases nodes, 1
  {
    forall i | 0 <= i < |nodes|
      ensures Represents(ToSQLAll(nodes, t).value[i], EvalAll(nodes, ctx).value[i], row, eng)
    {
      ExprPreserved(nodes[i], ctx, scope, t, row, eng);
    }
  }

  /**
   Expression compilation preserves meaning: when both Eval and ToSQL succeed and every consulted value
   agrees, the three-valued SQL value of the output encodes Eval's result.
   */
  lemma {:induction false} ExprPreserved(node: Node, ctx: Context, scope: Scope, t: Target, row: Row, eng: Engine)
    requires Eval(node, ctx).Ok? && ToSQL(node, t).Ok?
    requires Consistent(node, ctx, scope) && Linked(scope, ctx, t, row, eng)
    ensures Represents(ToSQL(node, t).value, Eval(node, ctx).value, row, eng)
    decreases node, 0
  {
    match node {
      case Literal(v) =>
      case Ident(path) => assert IdentAgrees(path, ctx, t, row, eng);
      case ListLit(elems) => AllPreserved(elems, ctx, scope, t, row, eng);
      case Call(fn, args) =>
        AllPreserved(args, ctx, scope, t, row, eng);
        assert ArgsRepresented(args, Context(ctx.env, ctx.funcs), Target(t.cols, t.funcs), row, eng);
        assert CallAgrees(fn, args, Context(ctx.env, ctx.funcs), Target(t.cols, t.funcs), row, eng);
      case Unary(op, x) =>
        ExprPreserved(x, ctx, scope, t, row, eng);
        if op.Neg? { NegPreserved(Eval(x, ctx).value, SqlEval(ToSQL(x, t).value, row, eng), eng); }
      case Binary(op, l, r) =>
        ExprPreserved(l, ctx, scope, t, row, eng);
        if op.And? || op.Or? {
          if Eval(l, ctx) == Ok(Bool(op.And?)) { ExprPreserved(r, ctx, scope, t, row, eng); }
          ShortCircuitPreserved(op, l, r, ctx, t, row, eng);
        } else {
          ExprPreserved(r, ctx, scope, t, row, eng);
          BinaryPreserved(op, l, r, Eval(l, ctx).value, Eval(r, ctx).value, ToSQL(l, t).value, ToSQL(r, t).value, row,
            eng);
        }
    }
  }

  /** Two-valued agreement of a condition. */
  lemma ConditionPreserved(node: Node, ctx: Context, scope: Scope, t: Target, row: Row, eng: Engine)
    requires EvalBool(node, ctx).Ok? && ToSQL(node, t).Ok?
    requires Consistent(node, ctx, scope) && Linked(scope, ctx, t, row, eng)
    ensures TruthOf(SqlEval(ToSQL(node, t).value, row, eng), eng) == Some(EvalBool(node, ctx).value)
  {
    ExprPreserved(node, ctx, scope, t, row, eng);
  }

  // ----- conditions on values that may be null: one truth value at a time -----

  /**
   SQL finds `a = b` to be `side` exactly when Go does. Over a null SQL finds neither, so Go must find the other.
   */
  predicate EqualSided(side: bool, a: Value, b: Value) {
    if a.Null? || b.Null? then IsScalar(a) && IsScalar(b) && (a == b) != side else Comparable(a, b)
  }

  /** The same for `in`, up to and including the first match. */
  predicate MemberSided(side: bool, l: Value, items: seq<Value>) {
    items == [] ||
    (EqualSided(side, l, items[0]) && (ValuesEqual(l, items[0]) == Ok(true) || MemberSided(side, l, items[1..])))
  }

  predicate OperandsSided(op: BinaryOp, side: bool, l: Node, r: Node, lv: Value, rv: Value)
    requires op.Eq? || op.Ne? || op.In?
  {
    if op.In? then rv.List? ==> MemberSided(side, lv, rv.items)
    else if IsNullLiteral(l) then IsScalar(rv)
    else if IsNullLiteral(r) then IsScalar(lv)
    else EqualSided(side == op.Eq?, lv, rv)
  }

  /**
   SQL finds the condition to be `side` exactly when Eval does. `not` asks the other side of its operand; `and` and
   `or` ask their right operand only where Eval consults it; `==`, `!=` and `in` may meet nulls.
   */
  predicate Sided(node: Node, side: bool, ctx: Context, scope: Scope) {
    match node
    case Unary(op, x) => if op.Not? then Sided(x, !side, ctx, scope) else Consistent(node, ctx, scope)
    case Binary(op, l, r) =>
      if op.And? || op.Or? then
        Sided(l, side, ctx, scope) && (Eval(l, ctx) == Ok(Bool(op.And?)) ==> Sided(r, side, ctx, scope))
      else if op.Eq? || op.Ne? || op.In? then
        && Consistent(l, ctx, scope) && Consistent(r, ctx, scope)
        && (Eval(l, ctx).Ok? && Eval(r, ctx).Ok? ==>
          OperandsSided(op, side, l, r, Eval(l, ctx).value, Eval(r, ctx).value))
      else Consistent(node, ctx, scope)
    case _ => Consistent(node, ctx, scope)
  }

  /** SQL finds the condition to be `side` exactly when Eval does. */
  ghost predicate OnSide(node: Node, side: bool, ctx: Context, t: Target, row: Row, eng: Engine) {
    match EvalBool(node, ctx)
    case Err => false
    case Ok(v) =>
      ToSQL(node, t).Ok? && (TruthOf(SqlEval(ToSQL(node, t).value, row, eng), eng) == Some(side) <==> v == side)
  }

  lemma EqualSide(side: bool, a: Value, b: Value, sa: SqlValue, sb: SqlValue, eng: Engine)
    requires EqualSided(side, a, b) && Encodes(sa, a) && Encodes(sb, b)
    ensures ValuesEqual(a, b).Ok? && (Compare3(SEq, sa, sb, eng) == Some(side) <==> ValuesEqual(a, b) == Ok(side))
    ensures Compare3(SNe, sa, sb, eng) == Not3(Compare3(SEq, sa, sb, eng))
  {
    if !a.Null? && !b.Null? { EqualPreserved(a, b, sa, sb, eng); }
  }

  /** For scalars the condition on `==` is not just enough but exactly what is needed; `!=` asks the other side. */
  lemma EqualSidedExactly(side: bool, a: Value, b: Value, sa: SqlValue, sb: SqlValue, eng: Engine)
    requires IsScalar(a) && IsScalar(b) && Encodes(sa, a) && Encodes(sb, b)
    requires (a.Float? ==> Representable(a)) && (b.Float? ==> Representable(b))
    ensures (Compare3(SEq, sa, sb, eng) == Some(side) <==> ValuesEqual(a, b) == Ok(side)) <==> EqualSided(side, a, b)
    ensures (Compare3(SNe, sa, sb, eng) == Some(side) <==> ValuesEqual(a, b) == Ok(!side)) <==> EqualSided(!side, a, b)
  {
    if !a.Null? && !b.Null? { EqualityAgreesExactly(a, b, sa, sb, eng); }
  }

  /** `not` agrees on one side exactly when its operand agrees on the other. */
  lemma NotSidedExactly(x: Node, side: bool, ctx: Context, t: Target, row: Row, eng: Engine)
    requires EvalBool(x, ctx).Ok? && ToSQL(x, t).Ok?
    ensures OnSide(Unary(Not, x), side, ctx, t, row, eng) <==> OnSide(x, !side, ctx, t, row, eng)
  {
    var v := SqlEval(ToSQL(x, t).value, row, eng);
    assert SqlEval(NotX(ToSQL(x, t).value), row, eng) == FromTruth(Not3(TruthOf(v, eng)));
  }

  lemma {:induction false} MemberSide(side: bool, l: Value, items: seq<Value>, sl: SqlValue, ss: seq<SqlValue>,
      eng: Engine)
    requires MemberSided(side, l, items) && (items != [] ==> Encodes(sl, l)) && |ss| == |items|
    requires forall i :: 0 <= i < |items| && IsScalar(items[i]) ==> Encodes(ss[i], items[i])
    ensures Member(l, items).Ok? && (Member3(sl, ss, eng) == Some(side) <==> Member(l, items) == Ok(side))
  {
    if items != [] {
      EqualSide(side, l, items[0], sl, ss[0], eng);
      if ValuesEqual(l, items[0]) != Ok(true) { MemberSide(side, l, items[1..], sl, ss[1..], eng); }
    }
  }

  lemma InSide(side: bool, l: Value, r: Value, ls: SqlExpr, rs: SqlExpr, row: Row, eng: Engine)
    requires Represents(ls, l, row, eng) && Represents(rs, r, row, eng) && r.List? && MemberSided(side, l, r.items)
    ensures Member(l, r.items).Ok?
    ensures TruthOf(SqlEval(InX(ls, rs), row, eng), eng) == Some(side) <==> Member(l, r.items) == Ok(side)
  {
    var ss := SqlEvalAll(rs.elems, row, eng);
    forall i | 0 <= i < |r.items| && IsScalar(r.items[i]) ensures Encodes(ss[i], r.items[i]) {
      assert Represents(rs.elems[i], r.items[i], row, eng);
    }
    MemberSide(side, l, r.items, SqlEval(ls, row, eng), ss, eng);
  }

  /** A comparison with the null literal is IS NULL, never unknown. */
  lemma NullTest(v: Value, s: SqlExpr, negated: bool, row: Row, eng: Engine)
    requires IsScalar(v) && Represents(s, v, row, eng)
    ensures TruthOf(SqlEval(IsNullX(s, negated), row, eng), eng) == Some((v == Null) != negated)
  {}

  lemma EqualitySide(op: BinaryOp, side: bool, l: Node, r: Node, lv: Value, rv: Value, ls: SqlExpr, rs: SqlExpr,
      row: Row, eng: Engine)
    requires (op.Eq? || op.Ne?) && OperandsSided(op, side, l, r, lv, rv)
    requires Represents(ls, lv, row, eng) && Represents(rs, rv, row, eng)
    requires (IsNullLiteral(l) ==> lv == Null) && (IsNullLiteral(r) ==> rv == Null)
    ensures ValuesEqual(lv, rv).Ok?
    ensures TruthOf(SqlEval(BinarySQL(op, l, r, ls, rs), row, eng), eng) == Some(side) <==>
      ValuesEqual(lv, rv) == Ok(side == op.Eq?)
  {
    var e, v := BinarySQL(op, l, r, ls, rs), TruthOf(SqlEval(BinarySQL(op, l, r, ls, rs), row, eng), eng);
    if IsNullLiteral(l) || IsNullLiteral(r) {
      NullTest(if IsNullLiteral(l) then rv else lv, if IsNullLiteral(l) then rs else ls, op.Ne?, row, eng);
      TruthIs(v, side);
    } else {
      assert e == CmpX(if op.Eq? then SEq else SNe, ls, rs);
      EqualSide(side == op.Eq?, lv, rv, SqlEval(ls, row, eng), SqlEval(rs, row, eng), eng);
    }
  }

  lemma ConnectiveSide(op: BinaryOp, side: bool, a: Truth, b: Truth, l: bool, r: bool, e: Truth)
    requires (op.And? && e == And3(a, b)) || (op.Or? && e == Or3(a, b))
    requires (a == Some(side) <==> l == side) && (l == op.And? ==> (b == Some(side) <==> r == side))
    ensures e == Some(side) <==> (if l == op.And? then r else l) == side
  {
    TruthIs(a, side);
    TruthIs(b, side);
  }

  lemma TruthIs(a: Truth, side: bool)
    ensures a == None || a == Some(side) || a == Some(!side)
  {
    if a.Some? {
      assert a == Some(a.value);
      if a.value == side {} else { assert a.value == !side; }
    }
  }

  predicate IsNot(node: Node) { node.Unary? && node.uop.Not? }

  predicate IsConnective(node: Node) { node.Binary? && (node.op.And? || node.op.Or?) }

  predicate IsEquality(node: Node) { node.Binary? && (node.op.Eq? || node.op.Ne? || node.op.In?) }

  predicate Compiles(node: Node, ctx: Context, t: Target) {
    match EvalBool(node, ctx)
    case Err => false
    case Ok(_) => ToSQL(node, t).Ok?
  }

  lemma NotParts(node: Node, side: bool, ctx: Context, scope: Scope, t: Target)
    requires IsNot(node) && Compiles(node, ctx, t) && Sided(node, side, ctx, scope)
    ensures node == Unary(Not, node.x) && Compiles(node.x, ctx, t) && Sided(node.x, !side, ctx, scope)
  {}

  lemma ConnectiveParts(node: Node, side: bool, ctx: Context, scope: Scope, t: Target)
    requires IsConnective(node) && Compiles(node, ctx, t) && Sided(node, side, ctx, scope)
    ensures Compiles(node.l, ctx, t) && Sided(node.l, side, ctx, scope)
    ensures ToSQL(node.r, t).Ok?
    ensures Eval(node.l, ctx) == Ok(Bool(node.op.And?)) ==> Compiles(node.r, ctx, t) && Sided(node.r, side, ctx, scope)
  {}

  lemma PlainSide(node: Node, side: bool, ctx: Context, scope: Scope, t: Target, row: Row, eng: Engine)
    requires !IsNot(node) && !IsConnective(node) && !IsEquality(node)
    requires Compiles(node, ctx, t) && Sided(node, side, ctx, scope) && Linked(scope, ctx, t, row, eng)
    ensures OnSide(node, side, ctx, t, row, eng)
  {
    ConditionPreserved(node, ctx, scope, t, row, eng);
  }

  lemma AndOrSide(op: BinaryOp, side: bool, l: Node, r: Node, ctx: Context, t: Target, row: Row, eng: Engine)
    requires (op.And? || op.Or?) && EvalBool(Binary(op, l, r), ctx).Ok? && ToSQL(Binary(op, l, r), t).Ok?
    requires OnSide(l, side, ctx, t, row, eng) &&
      (Eval(l, ctx) == Ok(Bool(op.And?)) ==> OnSide(r, side, ctx, t, row, eng))
    ensures OnSide(Binary(op, l, r), side, ctx, t, row, eng)
  {
    var consulted := Eval(l, ctx) == Ok(Bool(op.And?));
    ConnectiveSide(op, side, TruthOf(SqlEval(ToSQL(l, t).value, row, eng), eng),
      TruthOf(SqlEval(ToSQL(r, t).value, row, eng), eng),
      EvalBool(l, ctx).value, consulted && EvalBool(r, ctx).value,
      TruthOf(SqlEval(ToSQL(Binary(op, l, r), t).value, row, eng), eng));
  }

  lemma ComparisonSide(op: BinaryOp, side: bool, l: Node, r: Node, ctx: Context, scope: Scope, t: Target, row: Row,
      eng: Engine)
    requires (op.Eq? || op.Ne? || op.In?) && EvalBool(Binary(op, l, r), ctx).Ok? && ToSQL(Binary(op, l, r), t).Ok?
    requires Sided(Binary(op, l, r), side, ctx, scope) && Linked(scope, ctx, t, row, eng)
    ensures OnSide(Binary(op, l, r), side, ctx, t, row, eng)
  {
    ExprPreserved(l, ctx, scope, t, row, eng);
    ExprPreserved(r, ctx, scope, t, row, eng);
    var lv, rv, ls, rs := Eval(l, ctx).value, Eval(r, ctx).value, ToSQL(l, t).value, ToSQL(r, t).value;
    if op.In? {
      InSide(side, lv, rv, ls, rs, row, eng);
    } else {
      EqualitySide(op, side, l, r, lv, rv, ls, rs, row, eng);
    }
  }

  lemma {:induction false} ConnectiveCase(node: Node, side: bool, ctx: Context, scope: Scope, t: Target, row: Row,
      eng: Engine)
    requires Compiles(node, ctx, t) && Sided(node, side, ctx, scope) && Linked(scope, ctx, t, row, eng) &&
      IsConnective(node)
    ensures OnSide(node, side, ctx, t, row, eng)
    decreases node, 0
  {
    ConnectiveParts(node, side, ctx, scope, t);
    SidePreserved(node.l, side, ctx, scope, t, row, eng);
    if Eval(node.l, ctx) == Ok(Bool(node.op.And?)) { SidePreserved(node.r, side, ctx, scope, t, row, eng); }
    AndOrSide(node.op, side, node.l, node.r, ctx, t, row, eng);
  }

  /** Conditions that may meet null: SQL finds `side` exactly when Eval does. */
  lemma {:induction false} SidePreserved(node: Node, side: bool, ctx: Context, scope: Scope, t: Target, row: Row,
      eng: Engine)
    requires Compiles(node, ctx, t) && Sided(node, side, ctx, scope) && Linked(scope, ctx, t, row, eng)
    ensures OnSide(node, side, ctx, t, row, eng)
    decreases node, 1
  {
    if IsNot(node) {
      NotParts(node, side, ctx, scope, t);
      SidePreserved(node.x, !side, ctx, scope, t, row, eng);
      NotSidedExactly(node.x, side, ctx, t, row, eng);
    } else if IsConnective(node) {
      ConnectiveCase(node, side, ctx, scope, t, row, eng);
    } else if IsEquality(node) {
      ComparisonSide(node.op, side, node.l, node.r, ctx, scope, t, row, eng);
    } else {
      PlainSide(node, side, ctx, scope, t, row, eng);
    }
  }

  lemma {:induction false} MemberConsistentSided(l: Value, items: seq<Value>, side: bool)
    requires MemberAgrees(l, items)
    ensures MemberSided(side, l, items)
  {
    if items != [] && ValuesEqual(l, items[0]) != Ok(true) { MemberConsistentSided(l, items[1..], side); }
  }

  /** Two-valued agreement is agreement on either side, so the one-sided condition asks for less. */
  lemma {:induction false} ConsistentIsSided(node: Node, side: bool, ctx: Context, scope: Scope)
    requires Consistent(node, ctx, scope)
    ensures Sided(node, side, ctx, scope)
  {
    if node.Unary? && node.uop.Not? {
      ConsistentIsSided(node.x, !side, ctx, scope);
    } else if node.Binary? && (node.op.And? || node.op.Or?) {
      ConsistentIsSided(node.l, side, ctx, scope);
      if Eval(node.l, ctx) == Ok(Bool(node.op.And?)) { ConsistentIsSided(node.r, side, ctx, scope); }
    } else if node.Binary? && node.op.In? && Eval(node.l, ctx).Ok? && Eval(node.r, ctx).Ok? &&
      Eval(node.r, ctx).value.List? {
      MemberConsistentSided(Eval(node.l, ctx).value, Eval(node.r, ctx).value.items, side);
    }
  }
}
