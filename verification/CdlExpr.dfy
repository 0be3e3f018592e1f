/** CDL expressions and the direct evaluator (detect/expr/ast.go, detect/expr/eval.go). */
module CdlExpr {
  import opened Common

  /** A Go `any` as the evaluator sees it: nil, bool, int64, float64, string, []any, map[string]any. */
  datatype Value =
    | Null
    | Bool(b: bool)
    | Int(n: int)
    | Float(r: real)
    | Str(s: string)
    | List(items: seq<Value>)
    | Map(entries: map<string, Value>)

  type Path = seq<string>

  datatype UnaryOp = Not | Neg
  datatype CmpOp = Gt | Ge | Lt | Le
  datatype RingOp = Add | Sub | Mul
  datatype ArithOp = Ring(ring: RingOp) | Div
  datatype BinaryOp = And | Or | Eq | Ne | In | Compare(cmp: CmpOp) | Arith(arith: ArithOp)

  datatype Node =
    | Literal(value: Value)
    | Ident(path: Path)
    | ListLit(elems: seq<Node>)
    | Call(fn: string, args: seq<Node>)
    | Unary(uop: UnaryOp, x: Node)
    | Binary(op: BinaryOp, l: Node, r: Node)

  type Func = seq<Value> -> Result<Value>

  datatype Context = Context(env: Path -> Result<Value>, funcs: map<string, Func>)

  predicate IsNumber(v: Value) { v.Int? || v.Float? }

  function AsFloat(v: Value): real
    requires IsNumber(v)
  {
    if v.Int? then Float64(v.n) as real else v.r
  }

  /** Go's `==` on interface values after the numeric case; comparing two lists or two maps panics. */
  function ValuesEqual(a: Value, b: Value): Result<bool> {
    if IsNumber(a) && IsNumber(b) then Ok(AsFloat(a) == AsFloat(b))
    else if (a.List? && b.List?) || (a.Map? && b.Map?) then Err
    else Ok(a == b)
  }

  function CompareNumeric(op: CmpOp, l: Value, r: Value): Result<Value> {
    if !IsNumber(l) || !IsNumber(r) then Err
    else
      var lf, rf := AsFloat(l), AsFloat(r);
      Ok(Bool(match op case Gt => lf > rf case Ge => lf >= rf case Lt => lf < rf case Le => lf <= rf))
  }

  function ApplyInt(op: RingOp, a: int, b: int): int {
    match op case Add => a + b case Sub => a - b case Mul => a * b
  }

  function ApplyReal(op: RingOp, a: real, b: real): real {
    match op case Add => a + b case Sub => a - b case Mul => a * b
  }

  /** int64 stays int64 (wrapping) except under division, which is always true division. */
  function Arithmetic(op: ArithOp, l: Value, r: Value): Result<Value> {
    if l.Int? && r.Int? && op.Ring? then Ok(Int(Wrap64(ApplyInt(op.ring, l.n, r.n))))
    else if !IsNumber(l) || !IsNumber(r) then Err
    else if op.Ring? then Ok(Float(ApplyReal(op.ring, AsFloat(l), AsFloat(r))))
    else if AsFloat(r) == 0.0 then Err
    else Ok(Float(AsFloat(l) / AsFloat(r)))
  }

  function EvalUnary(op: UnaryOp, x: Value): Result<Value> {
    match op
    case Not => if x.Bool? then Ok(Bool(!x.b)) else Err
    case Neg => if x.Int? then Ok(Int(Wrap64(-x.n))) else if x.Float? then Ok(Float(-x.r)) else Err
  }

  /** The search loop of `in`: the first equal element wins, a panic before it is an error. */
  function Member(l: Value, items: seq<Value>): Result<bool> {
    if items == [] then Ok(false)
    else
      match ValuesEqual(l, items[0])
      case Err => Err
      case Ok(eq) => if eq then Ok(true) else Member(l, items[1..])
  }

  function EvalBinary(op: BinaryOp, l: Value, r: Value): Result<Value>
    requires !op.And? && !op.Or?
  {
    match op
    case Eq => (match ValuesEqual(l, r) case Err => Err case Ok(eq) => Ok(Bool(eq)))
    case Ne => (match ValuesEqual(l, r) case Err => Err case Ok(eq) => Ok(Bool(!eq)))
    case Compare(cmp) => CompareNumeric(cmp, l, r)
    case Arith(arith) => Arithmetic(arith, l, r)
    case In =>
      if !r.List? then Err
      else match Member(l, r.items) case Err => Err case Ok(found) => Ok(Bool(found))
  }

  function Eval(node: Node, ctx: Context): Result<Value>
    decreases node, 0
  {
    match node
    case Literal(v) => Ok(v)
    case Ident(path) => ctx.env(path)
    case ListLit(elems) =>
      (match EvalAll(elems, ctx) case Err => Err case Ok(vs) => Ok(List(vs)))
    case Call(fn, args) =>
      if fn !in ctx.funcs then Err
      else (match EvalAll(args, ctx) case Err => Err case Ok(vs) => ctx.funcs[fn](vs))
    case Unary(op, x) =>
      (match Eval(x, ctx) case Err => Err case Ok(v) => EvalUnary(op, v))
    case Binary(op, l, r) =>
      match Eval(l, ctx)
      case Err => Err
      case Ok(lv) =>
        if op.And? || op.Or? then
          if !lv.Bool? then Err
          else if lv.b == op.Or? then Ok(lv)
          else
            match Eval(r, ctx)
            case Err => Err
            case Ok(rv) => if rv.Bool? then Ok(rv) else Err
        else
          match Eval(r, ctx)
          case Err => Err
          case Ok(rv) => EvalBinary(op, lv, rv)
  }

  function EvalAll(nodes: seq<Node>, ctx: Context): (r: Result<seq<Value>>)
    ensures r.Ok? ==> |r.value| == |nodes|
    ensures r.Ok? <==> forall i :: 0 <= i < |nodes| ==> Eval(nodes[i], ctx).Ok?
    ensures r.Ok? ==> forall i :: 0 <= i < |nodes| ==> Eval(nodes[i], ctx) == Ok(r.value[i])
    decreases nodes, 1
  {
    if nodes == [] then Ok([])
    else
      match Eval(nodes[0], ctx)
      case Err => Err
      case Ok(v) =>
        match EvalAll(nodes[1..], ctx)
        case Err => Err
        case Ok(vs) => Ok([v] + vs)
  }

  /** EvalBool: `where`, `when` and `suppress.when` must produce a bool. */
  function EvalBool(node: Node, ctx: Context): Result<bool> {
    match Eval(node, ctx)
    case Err => Err
    case Ok(v) => if v.Bool? then Ok(v.b) else Err
  }

  // ----- the evaluator's loops -----

  method FindMember(l: Value, items: seq<Value>) returns (r: Result<bool>)
    ensures r == Member(l, items)
  {
    for i := 0 to |items|
      invariant Member(l, items) == Member(l, items[i..])
    {
      var eq := ValuesEqual(l, items[i]);
      if eq.Err? { return Err; }
      if eq.value { return Ok(true); }
    }
    return Ok(false);
  }

  method EvaluateAll(nodes: seq<Node>, ctx: Context) returns (r: Result<seq<Value>>)
    ensures r == EvalAll(nodes, ctx)
    decreases nodes, 1
  {
    var items: seq<Value> := [];
    for i := 0 to |nodes|
      invariant |items| == i && forall j :: 0 <= j < i ==> Eval(nodes[j], ctx) == Ok(items[j])
    {
      var v := Evaluate(nodes[i], ctx);
      if v.Err? { return Err; }
      items := items + [v.value];
    }
    assert items == EvalAll(nodes, ctx).value;
    return Ok(items);
  }

  /** The recursive walk of Eval, filling list and argument slices in loops. */
  method Evaluate(node: Node, ctx: Context) returns (r: Result<Value>)
    ensures r == Eval(node, ctx)
    decreases node, 0
  {
    match node
    case Literal(v) => return Ok(v);
    case Ident(path) => return ctx.env(path);
    case ListLit(elems) =>
      var vs := EvaluateAll(elems, ctx);
      return if vs.Err? then Err else Ok(List(vs.value));
    case Call(fn, args) =>
      if fn !in ctx.funcs { return Err; }
      var vs := EvaluateAll(args, ctx);
      return if vs.Err? then Err else ctx.funcs[fn](vs.value);
    case Unary(op, x) =>
      var v := Evaluate(x, ctx);
      return if v.Err? then Err else EvalUnary(op, v.value);
    case Binary(op, l, r) =>
      var lv := Evaluate(l, ctx);
      if lv.Err? { return Err; }
      if op.And? || op.Or? {
        if !lv.value.Bool? { return Err; }
        if lv.value.b == op.Or? { return lv; }
        var rv := Evaluate(r, ctx);
        return if rv.Ok? && rv.value.Bool? then rv else Err;
      }
      var rv := Evaluate(r, ctx);
      if rv.Err? { return Err; }
      if op.In? && rv.value.List? {
        var found := FindMember(lv.value, rv.value.items);
        return if found.Err? then Err else Ok(Bool(found.value));
      }
      return EvalBinary(op, lv.value, rv.value);
  }
}
