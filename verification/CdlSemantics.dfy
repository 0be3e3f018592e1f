/** What expressions mean, as a relation between a tree and its value; the evaluator computes exactly this relation. */
module CdlSemantics {
  import opened Common
  import opened CdlExpr

  /** Two numbers meet as float64 values. */
  function Real(v: Value): real
    requires v.Int? || v.Float?
  {
    match v case Int(n) => Float64(n) as real case Float(r) => r
  }

  predicate Number(v: Value) { v.Int? || v.Float? }

  /** Lists and maps cannot be compared with their like. */
  predicate Comparable(a: Value, b: Value) { !(a.List? && b.List?) && !(a.Map? && b.Map?) }

  /** Numbers by value, everything else by kind and content. */
  predicate Same(a: Value, b: Value) { if Number(a) && Number(b) then Real(a) == Real(b) else a == b }

  predicate Orders(c: CmpOp, x: real, y: real) {
    (c == Gt && y < x) || (c == Ge && y <= x) || (c == Lt && x < y) || (c == Le && x <= y)
  }

  /** An int64 congruent to the exact result modulo 2^64. */
  ghost predicate WrapsTo(exact: int, n: int) {
    IsInt64(n) && exists k: int :: n == exact + k * 0x1_0000_0000_0000_0000
  }

  ghost predicate IntComputes(op: RingOp, a: int, b: int, n: int) {
    match op case Add => WrapsTo(a + b, n) case Sub => WrapsTo(a - b, n) case Mul => WrapsTo(a * b, n)
  }

  predicate RealComputes(op: RingOp, x: real, y: real, r: real) {
    match op case Add => r == x + y case Sub => r == x - y case Mul => r == x * y
  }

  predicate DividesTo(x: real, y: real, q: real) { y != 0.0 && q * y == x }

  /** Two integers stay integers but under division, which multiplies back; dividing by zero is an error. */
  ghost predicate Computes(op: ArithOp, a: Value, b: Value, v: Value) {
    Number(a) && Number(b) &&
    match op
    case Div => v.Float? && DividesTo(Real(a), Real(b), v.r)
    case Ring(ring) =>
      if a.Int? && b.Int? then v.Int? && IntComputes(ring, a.n, b.n, v.n)
      else v.Float? && RealComputes(ring, Real(a), Real(b), v.r)
  }

  /** The search stops at the first equal item; an incomparable one before it is an error. */
  predicate FoundAt(l: Value, items: seq<Value>, i: int) {
    0 <= i < |items| && Comparable(l, items[i]) && Same(l, items[i]) && PassedOver(l, items, i)
  }

  predicate PassedOver(l: Value, items: seq<Value>, i: int) {
    0 <= i <= |items| && forall j :: 0 <= j < i ==> Comparable(l, items[j]) && !Same(l, items[j])
  }

  ghost predicate Contains(l: Value, items: seq<Value>, found: bool) {
    if found then exists i :: FoundAt(l, items, i) else PassedOver(l, items, |items|)
  }

  ghost predicate Applies(op: BinaryOp, a: Value, b: Value, v: Value) {
    match op
    case And => false
    case Or => false
    case Eq => Comparable(a, b) && v == Bool(Same(a, b))
    case Ne => Comparable(a, b) && v == Bool(!Same(a, b))
    case In => b.List? && v.Bool? && Contains(a, b.items, v.b)
    case Compare(c) => Number(a) && Number(b) && v == Bool(Orders(c, Real(a), Real(b)))
    case Arith(op) => Computes(op, a, b, v)
  }

  /** `v` is a value of the expression; every literal, path, list, call and operator in turn. */
  ghost predicate Means(node: Node, ctx: Context, v: Value)
    decreases node
  {
    match node
    case Literal(value) => v == value
    case Ident(path) => ctx.env(path) == Ok(v)
    case ListLit(elems) =>
      v.List? && |v.items| == |elems| && forall i :: 0 <= i < |elems| ==> Means(elems[i], ctx, v.items[i])
    case Call(fn, args) =>
      fn in ctx.funcs &&
      exists vs: seq<Value> :: |vs| == |args| && ctx.funcs[fn](vs) == Ok(v) &&
        forall i :: 0 <= i < |args| ==> Means(args[i], ctx, vs[i])
    case Unary(Not, x) => v.Bool? && Means(x, ctx, Bool(!v.b))
    case Unary(Neg, x) =>
      (v.Int? && exists n: int :: Means(x, ctx, Int(n)) && WrapsTo(-n, v.n)) || (v.Float? && Means(x, ctx, Float(-v.r)))
    case Binary(op, l, r) =>
      if op.And? || op.Or? then
        var decides := Bool(op.Or?);
        (v == decides && Means(l, ctx, decides)) || (v.Bool? && Means(l, ctx, Bool(op.And?)) && Means(r, ctx, v))
      else exists a, b :: Means(l, ctx, a) && Means(r, ctx, b) && Applies(op, a, b, v)
  }

  // ----- operators -----

  lemma WrapIs(exact: int, n: int)
    ensures Wrap64(exact) == n <==> WrapsTo(exact, n)
  {
    var k := WrapMeaning(exact);
    if WrapsTo(exact, n) {
      var j: int :| n == exact + j * 0x1_0000_0000_0000_0000;
      assert n - Wrap64(exact) == (j - k) * 0x1_0000_0000_0000_0000;
    }
  }

  lemma SameIs(a: Value, b: Value)
    ensures ValuesEqual(a, b).Ok? <==> Comparable(a, b)
    ensures Comparable(a, b) ==> ValuesEqual(a, b) == Ok(Same(a, b))
  {}

  lemma IntIs(op: RingOp, a: int, b: int, n: int)
    ensures Wrap64(ApplyInt(op, a, b)) == n <==> IntComputes(op, a, b, n)
  {
    WrapIs(ApplyInt(op, a, b), n);
  }

  lemma RealIs(op: RingOp, x: real, y: real, r: real)
    ensures ApplyReal(op, x, y) == r <==> RealComputes(op, x, y, r)
  {}

  lemma AsReal(a: Value)
    requires Number(a)
    ensures AsFloat(a) == Real(a)
  {}

  lemma RingIs(op: RingOp, a: Value, b: Value, v: Value)
    ensures Arithmetic(Ring(op), a, b) == Ok(v) <==> Computes(Ring(op), a, b, v)
  {
    if a.Int? && b.Int? {
      if v.Int? { IntIs(op, a.n, b.n, v.n); }
    } else if Number(a) && Number(b) {
      AsReal(a);
      AsReal(b);
      if v.Float? { RealIs(op, Real(a), Real(b), v.r); }
    }
  }

  lemma DivIs(a: Value, b: Value, v: Value)
    ensures Arithmetic(Div, a, b) == Ok(v) <==> Computes(Div, a, b, v)
  {
    if Number(a) && Number(b) {
      AsReal(a);
      AsReal(b);
      if v.Float? { QuotientIs(AsFloat(a), AsFloat(b), v.r); }
    }
  }

  lemma ArithmeticIs(op: ArithOp, a: Value, b: Value, v: Value)
    ensures Arithmetic(op, a, b) == Ok(v) <==> Computes(op, a, b, v)
  {
    match op
    case Div => DivIs(a, b, v);
    case Ring(ring) => RingIs(ring, a, b, v);
  }

  lemma QuotientIs(x: real, y: real, q: real)
    ensures DividesTo(x, y, q) <==> y != 0.0 && x / y == q
  {}

  lemma {:induction false} MemberIs(l: Value, items: seq<Value>, found: bool)
    ensures Member(l, items) == Ok(found) <==> Contains(l, items, found)
  {
    if items != [] {
      SameIs(l, items[0]);
      MemberIs(l, items[1..], found);
      ContainsStep(l, items, found);
    }
  }

  lemma ContainsStep(l: Value, items: seq<Value>, found: bool)
    requires items != []
    ensures Contains(l, items, found) <==>
      Comparable(l, items[0]) && if Same(l, items[0]) then found else Contains(l, items[1..], found)
  {
    var rest := items[1..];
    if found {
      if Comparable(l, items[0]) && Same(l, items[0]) { assert FoundAt(l, items, 0); }
      if i :| FoundAt(l, items, i) { if i > 0 { FoundLater(l, items, i - 1); } }
      if i :| FoundAt(l, rest, i) { if Comparable(l, items[0]) && !Same(l, items[0]) { FoundLater(l, items, i); } }
    } else {
      PassedLater(l, items, |rest|);
    }
  }

  lemma PassedLater(l: Value, items: seq<Value>, i: int)
    requires 0 <= i < |items|
    ensures PassedOver(l, items, i + 1) <==>
      Comparable(l, items[0]) && !Same(l, items[0]) && PassedOver(l, items[1..], i)
  {
    if PassedOver(l, items, i + 1) {
      forall j | 0 <= j < i ensures Comparable(l, items[1..][j]) && !Same(l, items[1..][j]) {
        assert items[1..][j] == items[j + 1];
      }
    }
    if Comparable(l, items[0]) && !Same(l, items[0]) && PassedOver(l, items[1..], i) {
      forall j | 0 <= j < i + 1 ensures Comparable(l, items[j]) && !Same(l, items[j]) {
        if j > 0 { assert items[j] == items[1..][j - 1]; }
      }
    }
  }

  lemma FoundLater(l: Value, items: seq<Value>, i: int)
    requires 0 <= i < |items| - 1
    ensures FoundAt(l, items, i + 1) <==>
      Comparable(l, items[0]) && !Same(l, items[0]) && FoundAt(l, items[1..], i)
  {
    PassedLater(l, items, i);
  }

  lemma InIs(a: Value, b: Value, v: Value)
    ensures EvalBinary(In, a, b) == Ok(v) <==> Applies(In, a, b, v)
  {
    if b.List? {
      MemberIs(a, b.items, true);
      MemberIs(a, b.items, false);
    }
  }

  lemma CompareIs(c: CmpOp, a: Value, b: Value, v: Value)
    ensures CompareNumeric(c, a, b) == Ok(v) <==> Applies(Compare(c), a, b, v)
  {}

  lemma ApplyIs(op: BinaryOp, a: Value, b: Value, v: Value)
    requires !op.And? && !op.Or?
    ensures EvalBinary(op, a, b) == Ok(v) <==> Applies(op, a, b, v)
  {
    if op.Eq? || op.Ne? {
      SameIs(a, b);
    } else if op.In? {
      InIs(a, b, v);
    } else if op.Compare? {
      CompareIs(op.cmp, a, b, v);
    } else {
      ArithmeticIs(op.arith, a, b, v);
    }
  }

  // ----- the evaluator computes the meaning -----

  lemma {:induction false} AllMean(nodes: seq<Node>, ctx: Context, vs: seq<Value>)
    ensures EvalAll(nodes, ctx) == Ok(vs) <==>
      |vs| == |nodes| && forall i :: 0 <= i < |nodes| ==> Means(nodes[i], ctx, vs[i])
    decreases nodes, 1
  {
    if |vs| == |nodes| {
      forall i | 0 <= i < |nodes| ensures Eval(nodes[i], ctx) == Ok(vs[i]) <==> Means(nodes[i], ctx, vs[i]) {
        EvalIsMeaning(nodes[i], ctx, vs[i]);
      }
      if forall i :: 0 <= i < |nodes| ==> Means(nodes[i], ctx, vs[i]) {
        assert forall i :: 0 <= i < |nodes| ==> Eval(nodes[i], ctx).Ok?;
        assert EvalAll(nodes, ctx).value == vs;
      }
    }
  }

  lemma {:induction false} CallMeans(node: Node, ctx: Context, v: Value)
    requires node.Call?
    ensures Eval(node, ctx) == Ok(v) <==> Means(node, ctx, v)
    decreases node, 0
  {
    if node.fn in ctx.funcs {
      var all := EvalAll(node.args, ctx);
      if all.Ok? { AllMean(node.args, ctx, all.value); }
      if Means(node, ctx, v) {
        var vs: seq<Value> :| |vs| == |node.args| && ctx.funcs[node.fn](vs) == Ok(v) &&
          forall i :: 0 <= i < |node.args| ==> Means(node.args[i], ctx, vs[i]);
        AllMean(node.args, ctx, vs);
      }
    }
  }

  lemma {:induction false} UnaryMeans(node: Node, ctx: Context, v: Value)
    requires node.Unary?
    ensures Eval(node, ctx) == Ok(v) <==> Means(node, ctx, v)
    decreases node, 0
  {
    var x := Eval(node.x, ctx);
    if x.Ok? { EvalIsMeaning(node.x, ctx, x.value); }
    match node.uop
    case Not =>
      if v.Bool? { EvalIsMeaning(node.x, ctx, Bool(!v.b)); }
    case Neg =>
      if v.Float? { EvalIsMeaning(node.x, ctx, Float(-v.r)); }
      if x.Ok? && x.value.Int? && v.Int? { WrapIs(-x.value.n, v.n); }
      if v.Int? {
        if n: int :| Means(node.x, ctx, Int(n)) && WrapsTo(-n, v.n) {
          EvalIsMeaning(node.x, ctx, Int(n));
          WrapIs(-n, v.n);
        }
      }
  }

  lemma {:induction false} ConnectiveMeans(node: Node, ctx: Context, v: Value)
    requires node.Binary? && (node.op.And? || node.op.Or?)
    ensures Eval(node, ctx) == Ok(v) <==> Means(node, ctx, v)
    decreases node, 0
  {
    EvalIsMeaning(node.l, ctx, Bool(true));
    EvalIsMeaning(node.l, ctx, Bool(false));
    EvalIsMeaning(node.r, ctx, v);
  }

  lemma {:induction false} OperatorMeans(node: Node, ctx: Context, v: Value)
    requires node.Binary? && !node.op.And? && !node.op.Or?
    ensures Eval(node, ctx) == Ok(v) <==> Means(node, ctx, v)
    decreases node, 0
  {
    var a, b := Eval(node.l, ctx), Eval(node.r, ctx);
    if a.Ok? { EvalIsMeaning(node.l, ctx, a.value); }
    if b.Ok? { EvalIsMeaning(node.r, ctx, b.value); }
    if a.Ok? && b.Ok? { ApplyIs(node.op, a.value, b.value, v); }
    if Means(node, ctx, v) {
      var x, y :| Means(node.l, ctx, x) && Means(node.r, ctx, y) && Applies(node.op, x, y, v);
      EvalIsMeaning(node.l, ctx, x);
      EvalIsMeaning(node.r, ctx, y);
    }
  }

  /** The evaluator succeeds exactly on expressions that have a value, and yields that value. */
  lemma {:induction false} EvalIsMeaning(node: Node, ctx: Context, v: Value)
    ensures Eval(node, ctx) == Ok(v) <==> Means(node, ctx, v)
    decreases node, 1
  {
    match node
    case Literal(_) =>
    case Ident(_) =>
    case ListLit(elems) => if v.List? { AllMean(elems, ctx, v.items); }
    case Call(_, _) => CallMeans(node, ctx, v);
    case Unary(_, _) => UnaryMeans(node, ctx, v);
    case Binary(op, _, _) =>
      if op.And? || op.Or? { ConnectiveMeans(node, ctx, v); } else { OperatorMeans(node, ctx, v); }
  }

  /** A condition is a bool or an error. */
  lemma ConditionIsMeaning(node: Node, ctx: Context, b: bool)
    ensures EvalBool(node, ctx) == Ok(b) <==> Means(node, ctx, Bool(b))
  {
    EvalIsMeaning(node, ctx, Bool(b));
  }
}
