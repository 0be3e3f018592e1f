/** The recursive-descent parser over a token cursor (detect/expr/parser.go), against the grammar it documents. */
module CdlParser {
  import opened Common
  import opened CdlExpr

  // ----- tokens -----

  /** One constructor per token kind; the binary operator kinds carry the operator they stand for. */
  datatype Token =
    | End
    | Name(text: string)
    | Number(num: real, isInt: bool)
    | Text(text: string)
    | TrueWord | FalseWord | NullWord | NotWord
    | Op(op: BinaryOp)
    | Dot | Comma | LParen | RParen | LBracket | RBracket

  const MINUS: Token := Op(Arith(Ring(Sub)))

  /** What int64(f) yields on amd64 for a float64 beyond int64; the language leaves it to the platform. */
  const OUT_OF_RANGE: int := MIN_INT64

  function LiteralOf(t: Token): Option<Value> {
    match t
    case Number(num, isInt) =>
      Some(if !isInt then Float(num) else if num.Floor <= MAX_INT64 then Int(num.Floor) else Int(OUT_OF_RANGE))
    case Text(text) => Some(Str(text))
    case TrueWord => Some(Bool(true))
    case FalseWord => Some(Bool(false))
    case NullWord => Some(Null)
    case _ => None
  }

  /** The lexer's output: the end token stands last and nowhere else. */
  predicate Lexed(toks: seq<Token>) { toks != [] && toks[|toks| - 1] == End && End !in toks[..|toks| - 1] }

  /** The token at the cursor, given the tokens from there on but without the final end token. */
  function Head(ts: seq<Token>): Token { if ts == [] then End else ts[0] }

  // ----- precedence -----

  /** or, and, not, comparison, additive, multiplicative, unary minus, primary. */
  type Level = l: nat | l <= 7

  function OpLevel(op: BinaryOp): (l: Level)
    ensures l in {0, 1, 3, 4, 5}
  {
    match op
    case Or => 0
    case And => 1
    case Eq => 3
    case Ne => 3
    case In => 3
    case Compare(_) => 3
    case Arith(a) => if a in {Ring(Add), Ring(Sub)} then 4 else 5
  }

  predicate IsLeft(l: Level) { l in {0, 1, 4, 5} }

  predicate OpAt(t: Token, l: Level) { t.Op? && OpLevel(t.op) == l }

  // ----- the grammar: concrete syntax trees -----

  datatype Cst =
    | CLiteral(tok: Token)
    | CPath(names: seq<string>)
    | CCall(fn: string, args: seq<Cst>)
    | CList(items: seq<Cst>)
    | CParen(inner: Cst)
    | CUnary(uop: UnaryOp, x: Cst)
    | CBinary(op: BinaryOp, l: Cst, r: Cst)

  function PrefixLevel(op: UnaryOp): Level { if op.Not? then 2 else 6 }

  function PrefixToken(op: UnaryOp): Token { if op.Not? then NotWord else MINUS }

  function LevelOf(c: Cst): Level {
    match c case CUnary(op, _) => PrefixLevel(op) case CBinary(op, _, _) => OpLevel(op) case _ => 7
  }

  /** Operands bind at least as tightly as the grammar asks: chains lean left, comparisons do not chain. */
  predicate WellFormed(c: Cst) {
    match c
    case CLiteral(tok) => LiteralOf(tok).Some?
    case CPath(names) => names != []
    case CCall(_, args) => forall a :: a in args ==> WellFormed(a)
    case CList(items) => forall a :: a in items ==> WellFormed(a)
    case CParen(inner) => WellFormed(inner)
    case CUnary(op, x) => WellFormed(x) && LevelOf(x) >= PrefixLevel(op)
    case CBinary(op, l, r) =>
      WellFormed(l) && WellFormed(r) && LevelOf(r) > OpLevel(op) &&
      LevelOf(l) >= (if IsLeft(OpLevel(op)) then OpLevel(op) else OpLevel(op) + 1)
  }

  function Ast(c: Cst): Node
    requires WellFormed(c)
    decreases c, 0
  {
    match c
    case CLiteral(tok) => Literal(LiteralOf(tok).value)
    case CPath(names) => Ident(names)
    case CCall(fn, args) => Call(fn, Asts(args))
    case CList(items) => ListLit(Asts(items))
    case CParen(inner) => Ast(inner)
    case CUnary(op, x) => Unary(op, Ast(x))
    case CBinary(op, l, r) => Binary(op, Ast(l), Ast(r))
  }

  function Asts(cs: seq<Cst>): seq<Node>
    requires forall c :: c in cs ==> WellFormed(c)
    decreases cs, 1
  {
    if cs == [] then [] else [Ast(cs[0])] + Asts(cs[1..])
  }

  /** The tokens of `c`, followed by `rest`. */
  function Spell(c: Cst, rest: seq<Token>): (ts: seq<Token>)
    ensures |ts| == Size(c) + |rest|
    decreases c, 0
  {
    match c
    case CLiteral(tok) => [tok] + rest
    case CPath(names) => if names == [] then rest else [Name(names[0])] + SpellSteps(names[1..], rest)
    case CCall(fn, args) => [Name(fn)] + ([LParen] + SpellItems(args, [RParen] + rest))
    case CList(items) => [LBracket] + SpellItems(items, [RBracket] + rest)
    case CParen(inner) => [LParen] + Spell(inner, [RParen] + rest)
    case CUnary(op, x) => [PrefixToken(op)] + Spell(x, rest)
    case CBinary(op, l, r) => Spell(l, [Op(op)] + Spell(r, rest))
  }

  function SpellSteps(names: seq<string>, rest: seq<Token>): (ts: seq<Token>)
    ensures |ts| == 2 * |names| + |rest|
  {
    if names == [] then rest else [Dot] + ([Name(names[0])] + SpellSteps(names[1..], rest))
  }

  function SpellItems(cs: seq<Cst>, rest: seq<Token>): (ts: seq<Token>)
    ensures |ts| == Sizes(cs) + |rest|
    decreases cs, 1
  {
    if cs == [] then rest
    else if |cs| == 1 then Spell(cs[0], rest)
    else Spell(cs[0], [Comma] + SpellItems(cs[1..], rest))
  }

  /** How many tokens a sentence has. */
  function Size(c: Cst): nat
    decreases c, 0
  {
    match c
    case CLiteral(_) => 1
    case CPath(names) => if names == [] then 0 else 2 * |names| - 1
    case CCall(_, args) => 3 + Sizes(args)
    case CList(items) => 2 + Sizes(items)
    case CParen(inner) => 2 + Size(inner)
    case CUnary(_, x) => 1 + Size(x)
    case CBinary(_, l, r) => Size(l) + 1 + Size(r)
  }

  function Sizes(cs: seq<Cst>): nat
    decreases cs, 1
  {
    if cs == [] then 0 else Size(cs[0]) + (if |cs| == 1 then 0 else 1 + Sizes(cs[1..]))
  }

  // ----- table-driven specification of the parser -----

  datatype Outcome<+T> = Parsed(value: T, rest: seq<Token>) | Failed

  /** One expression of level `l` off the front of the stream. */
  function ParseAt(l: Level, ts: seq<Token>): (o: Outcome<Node>)
    ensures o.Parsed? ==> |o.rest| < |ts|
    decreases |ts|, 8 - l, 0
  {
    if l == 7 then PrimaryAt(ts)
    else if (l == 2 && Head(ts) == NotWord) || (l == 6 && Head(ts) == MINUS) then
      match ParseAt(l, ts[1..])
      case Failed => Failed
      case Parsed(x, rest) => Parsed(Unary(if l == 2 then Not else Neg, x), rest)
    else
      match ParseAt(l + 1, ts)
      case Failed => Failed
      case Parsed(left, rest) =>
        if IsLeft(l) then ChainAt(l, left, rest)
        else if l == 3 && OpAt(Head(rest), 3) then
          match ParseAt(4, rest[1..])
          case Failed => Failed
          case Parsed(right, rest') => Parsed(Binary(Head(rest).op, left, right), rest')
        else Parsed(left, rest)
  }

  /** The operators of a left-associative level that follow `left`, with their operands. */
  function ChainAt(l: Level, left: Node, ts: seq<Token>): (o: Outcome<Node>)
    requires IsLeft(l)
    ensures o.Parsed? ==> |o.rest| <= |ts|
    decreases |ts|, 8 - l, 1
  {
    if !OpAt(Head(ts), l) then Parsed(left, ts)
    else
      match ParseAt(l + 1, ts[1..])
      case Failed => Failed
      case Parsed(right, rest) => ChainAt(l, Binary(Head(ts).op, left, right), rest)
  }

  function PrimaryAt(ts: seq<Token>): (o: Outcome<Node>)
    ensures o.Parsed? ==> |o.rest| < |ts|
    decreases |ts|, 0, 0
  {
    if Head(ts) == LParen then ParenAt(ts[1..])
    else if Head(ts) == LBracket then
      match ItemsAt(RBracket, ts[1..])
      case Failed => Failed
      case Parsed(items, rest) => Parsed(ListLit(items), rest)
    else if Head(ts).Name? then NameAt(Head(ts).text, ts[1..])
    else LiteralAt(ts)
  }

  /** After an opening parenthesis. */
  function ParenAt(ts: seq<Token>): (o: Outcome<Node>)
    ensures o.Parsed? ==> |o.rest| < |ts|
    decreases |ts|, 9, 0
  {
    match ParseAt(0, ts)
    case Failed => Failed
    case Parsed(inner, rest) => if Head(rest) == RParen then Parsed(inner, rest[1..]) else Failed
  }

  /** After an identifier: a call, or the rest of a dotted path. */
  function NameAt(name: string, ts: seq<Token>): (o: Outcome<Node>)
    ensures o.Parsed? ==> |o.rest| <= |ts|
    decreases |ts|, 9, 0
  {
    if Head(ts) == LParen then
      match ItemsAt(RParen, ts[1..])
      case Failed => Failed
      case Parsed(args, rest) => Parsed(Call(name, args), rest)
    else
      match StepsAt(ts)
      case Failed => Failed
      case Parsed(names, rest) => Parsed(Ident([name] + names), rest)
  }

  function LiteralAt(ts: seq<Token>): (o: Outcome<Node>)
    ensures o.Parsed? ==> |o.rest| < |ts|
  {
    match LiteralOf(Head(ts))
    case None => Failed
    case Some(v) => Parsed(Literal(v), ts[1..])
  }

  /** A possibly empty comma-separated list and its closing token; no trailing comma. */
  function ItemsAt(close: Token, ts: seq<Token>): (o: Outcome<seq<Node>>)
    requires close in {RParen, RBracket}
    ensures o.Parsed? ==> |o.rest| < |ts|
    decreases |ts|, 9, 1
  {
    if Head(ts) == close then Parsed([], ts[1..])
    else
      match ListAt(ts)
      case Failed => Failed
      case Parsed(items, rest) => if Head(rest) == close then Parsed(items, rest[1..]) else Failed
  }

  function ListAt(ts: seq<Token>): (o: Outcome<seq<Node>>)
    ensures o.Parsed? ==> |o.rest| < |ts|
    decreases |ts|, 9, 0
  {
    match ParseAt(0, ts)
    case Failed => Failed
    case Parsed(item, rest) =>
      if Head(rest) != Comma then Parsed([item], rest)
      else
        match ListAt(rest[1..])
        case Failed => Failed
        case Parsed(items, rest') => Parsed([item] + items, rest')
  }

  function StepsAt(ts: seq<Token>): (o: Outcome<seq<string>>)
    ensures o.Parsed? ==> |o.rest| <= |ts|
  {
    if Head(ts) != Dot then Parsed([], ts)
    else if !Head(ts[1..]).Name? then Failed
    else
      match StepsAt(ts[2..])
      case Failed => Failed
      case Parsed(names, rest) => Parsed([ts[1].text] + names, rest)
  }

  /** The whole input must be one expression. */
  function ParseTokens(ts: seq<Token>): Result<Node>
  {
    match ParseAt(0, ts)
    case Failed => Err
    case Parsed(node, rest) => if rest == [] then Ok(node) else Err
  }

  // ----- completeness: every sentence of the grammar parses to its tree -----

  /** Tokens that would extend an expression of level `l` just parsed. */
  predicate Continues(l: Level, t: Token) { (t.Op? && OpLevel(t.op) >= l) || t in {Dot, LParen} }

  lemma {:induction false} SpellStarts(c: Cst, rest: seq<Token>)
    requires WellFormed(c)
    ensures Spell(c, rest) != []
    ensures Spell(c, rest)[0] !in {RParen, RBracket, End, Comma, Dot}
    ensures Spell(c, rest)[0] == NotWord ==> LevelOf(c) <= 2
    ensures Spell(c, rest)[0] == MINUS ==> LevelOf(c) <= 6
  {
    match c
    case CBinary(op, l, r) => SpellStarts(l, [Op(op)] + Spell(r, rest));
    case _ =>
  }

  lemma {:induction false} StepsParse(names: seq<string>, rest: seq<Token>)
    requires Head(rest) != Dot
    ensures StepsAt(SpellSteps(names, rest)) == Parsed(names, rest)
  {
    if names != [] {
      var more := SpellSteps(names[1..], rest);
      StepsParse(names[1..], rest);
      assert ([Dot] + ([Name(names[0])] + more))[2..] == more;
      assert [names[0]] + names[1..] == names;
    }
  }

  lemma PathParses(names: seq<string>, rest: seq<Token>)
    requires names != [] && Head(rest) !in {Dot, LParen}
    ensures NameAt(names[0], SpellSteps(names[1..], rest)) == Parsed(Ident(names), rest)
  {
    StepsParse(names[1..], rest);
    assert [names[0]] + names[1..] == names;
  }

  lemma {:induction false} CallParses(fn: string, args: seq<Cst>, rest: seq<Token>)
    requires (forall a :: a in args ==> WellFormed(a))
    ensures NameAt(fn, [LParen] + SpellItems(args, [RParen] + rest)) == Parsed(Call(fn, Asts(args)), rest)
    decreases args, 10
  {
    ItemsParse(args, RParen, rest);
    var tail := SpellItems(args, [RParen] + rest);
    assert ([LParen] + tail)[1..] == tail;
  }

  lemma {:induction false} ParenParses(inner: Cst, rest: seq<Token>)
    requires WellFormed(inner)
    ensures ParenAt(Spell(inner, [RParen] + rest)) == Parsed(Ast(inner), rest)
    decreases inner, 9
  {
    SentenceParses(inner, 0, [RParen] + rest);
    assert ([RParen] + rest)[1..] == rest;
  }

  /** A list's items parse up to its closing token. */
  lemma {:induction false} ItemsParse(cs: seq<Cst>, close: Token, rest: seq<Token>)
    requires close in {RParen, RBracket} && forall c :: c in cs ==> WellFormed(c)
    ensures ItemsAt(close, SpellItems(cs, [close] + rest)) == Parsed(Asts(cs), rest)
    decreases cs, 9
  {
    assert ([close] + rest)[1..] == rest;
    if cs != [] {
      ListParse(cs, [close] + rest);
      SpellStarts(cs[0], if |cs| == 1 then [close] + rest else [Comma] + SpellItems(cs[1..], [close] + rest));
    }
  }

  lemma {:induction false} ListParse(cs: seq<Cst>, rest: seq<Token>)
    requires cs != [] && Head(rest) in {RParen, RBracket} && forall c :: c in cs ==> WellFormed(c)
    ensures ListAt(SpellItems(cs, rest)) == Parsed(Asts(cs), rest)
    decreases cs, 8
  {
    if |cs| == 1 {
      assert cs[1..] == [];
      assert Asts(cs) == [Ast(cs[0])] + Asts(cs[1..]) == [Ast(cs[0])];
      SentenceParses(cs[0], 0, rest);
    } else {
      ListParse(cs[1..], rest);
      var more := SpellItems(cs[1..], rest);
      SentenceParses(cs[0], 0, [Comma] + more);
      assert ([Comma] + more)[1..] == more;
    }
  }

  lemma {:induction false} PrimaryParses(c: Cst, rest: seq<Token>)
    requires WellFormed(c) && LevelOf(c) == 7 && Head(rest) !in {Dot, LParen}
    ensures PrimaryAt(Spell(c, rest)) == Parsed(Ast(c), rest)
    decreases c, 0
  {
    var tail := Spell(c, rest)[1..];
    match c
    case CLiteral(tok) => assert tail == rest;
    case CPath(names) => PathParses(names, rest);
      assert tail == SpellSteps(names[1..], rest);
    case CCall(fn, args) => CallParses(fn, args, rest);
      assert tail == [LParen] + SpellItems(args, [RParen] + rest);
    case CList(items) => ItemsParse(items, RBracket, rest);
      assert tail == SpellItems(items, [RBracket] + rest);
    case CParen(inner) => ParenParses(inner, rest);
      assert tail == Spell(inner, [RParen] + rest);
  }

  /** A left-associative chain folds from the left: after `c`, the parser looks for more operators of the level. */
  lemma {:induction false} ChainParses(c: Cst, l: Level, rest: seq<Token>)
    requires WellFormed(c) && IsLeft(l) && LevelOf(c) >= l && !Continues(l + 1, Head(rest))
    ensures ParseAt(l, Spell(c, rest)) == ChainAt(l, Ast(c), rest)
    decreases c, 8 - l, 0
  {
    SpellStarts(c, rest);
    if LevelOf(c) == l {
      SentenceParses(c.r, l + 1, rest);
      var tail := Spell(c.r, rest);
      ChainParses(c.l, l, [Op(c.op)] + tail);
      assert ([Op(c.op)] + tail)[1..] == tail;
    } else {
      SentenceParses(c, l + 1, rest);
    }
  }

  lemma {:induction false} ComparisonParses(op: BinaryOp, l: Cst, r: Cst, rest: seq<Token>)
    requires OpLevel(op) == 3 && WellFormed(l) && WellFormed(r) && LevelOf(l) > 3 && LevelOf(r) > 3 &&
      !Continues(4, Head(rest))
    ensures ParseAt(3, Spell(l, [Op(op)] + Spell(r, rest))) == Parsed(Binary(op, Ast(l), Ast(r)), rest)
    decreases Cst.CBinary(op, l, r), 0, 0
  {
    var tail := Spell(r, rest);
    SentenceParses(r, 4, rest);
    SentenceParses(l, 4, [Op(op)] + tail);
    assert ([Op(op)] + tail)[1..] == tail;
  }

  /** The parser reads any sentence of level `l` back as its tree, stopping where the sentence ends. */
  lemma {:induction false} SentenceParses(c: Cst, l: Level, rest: seq<Token>)
    requires WellFormed(c) && LevelOf(c) >= l && !Continues(l, Head(rest))
    ensures ParseAt(l, Spell(c, rest)) == Parsed(Ast(c), rest)
    decreases c, 8 - l, 1
  {
    SpellStarts(c, rest);
    if l == 7 {
      PrimaryParses(c, rest);
    } else if IsLeft(l) {
      ChainParses(c, l, rest);
    } else if c.CUnary? && LevelOf(c) == l {
      SentenceParses(c.x, l, rest);
      assert Spell(c, rest)[1..] == Spell(c.x, rest);
    } else if c.CBinary? && LevelOf(c) == l {
      ComparisonParses(c.op, c.l, c.r, rest);
    } else {
      SentenceParses(c, l + 1, rest);
    }
  }

  // ----- soundness: whatever parses is a sentence of the grammar -----

  lemma HeadTail(ts: seq<Token>)
    requires ts != []
    ensures ts == [Head(ts)] + ts[1..]
  {}

  lemma {:induction false} StepsSound(ts: seq<Token>)
    requires StepsAt(ts).Parsed?
    ensures ts == SpellSteps(StepsAt(ts).value, StepsAt(ts).rest)
  {
    if Head(ts) == Dot {
      StepsSound(ts[2..]);
      var names := StepsAt(ts[2..]).value;
      assert ([ts[1].text] + names)[1..] == names;
      assert ts == [Dot] + ([ts[1]] + ts[2..]);
    }
  }

  lemma {:induction false} ItemsSound(close: Token, ts: seq<Token>) returns (cs: seq<Cst>)
    requires close in {RParen, RBracket} && ItemsAt(close, ts).Parsed?
    ensures forall c :: c in cs ==> WellFormed(c)
    ensures Asts(cs) == ItemsAt(close, ts).value && ts == SpellItems(cs, [close] + ItemsAt(close, ts).rest)
    decreases |ts|, 9, 1
  {
    if Head(ts) == close {
      cs := [];
      HeadTail(ts);
    } else {
      cs := ListSound(ts);
      HeadTail(ListAt(ts).rest);
    }
  }

  lemma {:induction false} ListSound(ts: seq<Token>) returns (cs: seq<Cst>)
    requires ListAt(ts).Parsed?
    ensures cs != [] && forall c :: c in cs ==> WellFormed(c)
    ensures Asts(cs) == ListAt(ts).value && ts == SpellItems(cs, ListAt(ts).rest)
    decreases |ts|, 9, 0
  {
    var c := Sound(0, ts);
    var rest := ParseAt(0, ts).rest;
    if Head(rest) == Comma {
      var more := ListSound(rest[1..]);
      cs := [c] + more;
      assert cs[1..] == more;
      HeadTail(rest);
    } else {
      cs := [c];
      assert Asts(cs) == [Ast(c)] + Asts([]);
    }
  }

  lemma {:induction false} NameSound(name: string, ts: seq<Token>) returns (c: Cst)
    requires NameAt(name, ts).Parsed?
    ensures WellFormed(c) && LevelOf(c) == 7 && Ast(c) == NameAt(name, ts).value
    ensures Spell(c, NameAt(name, ts).rest) == [Name(name)] + ts
    decreases |ts|, 9, 0
  {
    if Head(ts) == LParen {
      var args := ItemsSound(RParen, ts[1..]);
      c := CCall(name, args);
      HeadTail(ts);
    } else {
      StepsSound(ts);
      var names := StepsAt(ts).value;
      c := CPath([name] + names);
      assert ([name] + names)[1..] == names;
    }
  }

  lemma {:induction false} PrimarySound(ts: seq<Token>) returns (c: Cst)
    requires PrimaryAt(ts).Parsed?
    ensures WellFormed(c) && LevelOf(c) == 7 && Ast(c) == PrimaryAt(ts).value && ts == Spell(c, PrimaryAt(ts).rest)
    decreases |ts|, 0, 0
  {
    HeadTail(ts);
    if Head(ts) == LParen {
      var inner := Sound(0, ts[1..]);
      c := CParen(inner);
      HeadTail(ParseAt(0, ts[1..]).rest);
    } else if Head(ts) == LBracket {
      var items := ItemsSound(RBracket, ts[1..]);
      c := CList(items);
    } else if Head(ts).Name? {
      c := NameSound(Head(ts).text, ts[1..]);
    } else {
      c := CLiteral(Head(ts));
    }
  }

  lemma {:induction false} ChainSound(l: Level, left: Cst, ts: seq<Token>) returns (c: Cst)
    requires IsLeft(l) && WellFormed(left) && LevelOf(left) >= l && ChainAt(l, Ast(left), ts).Parsed?
    ensures WellFormed(c) && LevelOf(c) >= l && Ast(c) == ChainAt(l, Ast(left), ts).value
    ensures Spell(left, ts) == Spell(c, ChainAt(l, Ast(left), ts).rest)
    decreases |ts|, 8 - l, 1
  {
    if OpAt(Head(ts), l) {
      HeadTail(ts);
      var right := Sound(l + 1, ts[1..]);
      c := ChainSound(l, CBinary(Head(ts).op, left, right), ParseAt(l + 1, ts[1..]).rest);
    } else {
      c := left;
    }
  }

  lemma {:induction false} Sound(l: Level, ts: seq<Token>) returns (c: Cst)
    requires ParseAt(l, ts).Parsed?
    ensures WellFormed(c) && LevelOf(c) >= l && Ast(c) == ParseAt(l, ts).value && ts == Spell(c, ParseAt(l, ts).rest)
    decreases |ts|, 8 - l, 0
  {
    if l == 7 {
      c := PrimarySound(ts);
    } else if (l == 2 && Head(ts) == NotWord) || (l == 6 && Head(ts) == MINUS) {
      HeadTail(ts);
      var x := Sound(l, ts[1..]);
      c := CUnary(if l == 2 then Not else Neg, x);
    } else {
      c := Sound(l + 1, ts);
      var rest := ParseAt(l + 1, ts).rest;
      if IsLeft(l) {
        c := ChainSound(l, c, rest);
      } else if l == 3 && OpAt(Head(rest), 3) {
        HeadTail(rest);
        var right := Sound(4, rest[1..]);
        c := CBinary(Head(rest).op, c, right);
      }
    }
  }

  // ----- main results -----

  /** `ts` is a sentence of the grammar whose tree is `node`. */
  ghost predicate Derives(c: Cst, ts: seq<Token>, node: Node) { WellFormed(c) && Spell(c, []) == ts && Ast(c) == node }

  /** The parser accepts exactly the sentences of the grammar, with their trees. */
  lemma ParsesExactly(ts: seq<Token>, node: Node)
    ensures ParseTokens(ts) == Ok(node) <==> exists c :: Derives(c, ts, node)
  {
    if ParseTokens(ts) == Ok(node) {
      var c := Sound(0, ts);
      assert Derives(c, ts, node);
    }
    if c :| Derives(c, ts, node) {
      SentenceParses(c, 0, []);
    }
  }

  /** The grammar is unambiguous: one token string has one tree. */
  lemma Unambiguous(c: Cst, d: Cst)
    requires WellFormed(c) && WellFormed(d) && Spell(c, []) == Spell(d, [])
    ensures Ast(c) == Ast(d)
  {
    SentenceParses(c, 0, []);
    SentenceParses(d, 0, []);
  }

  // ----- which operator binds tighter -----

  /** From loosest to tightest: or, and, comparisons, sums, products. */
  function Tightness(op: BinaryOp): nat {
    match op
    case Or => 0
    case And => 1
    case Arith(a) => if a == Ring(Add) || a == Ring(Sub) then 3 else 4
    case _ => 2
  }

  /** A literal, a path, a call, a list or something in parentheses. */
  predicate Operand(c: Cst) { WellFormed(c) && !c.CUnary? && !c.CBinary? }

  function Spell3(a: Cst, p: BinaryOp, b: Cst, q: BinaryOp, c: Cst): seq<Token> {
    Spell(a, [Op(p)] + Spell(b, [Op(q)] + Spell(c, [])))
  }

  lemma LevelOrder(p: BinaryOp, q: BinaryOp)
    ensures OpLevel(p) < OpLevel(q) <==> Tightness(p) < Tightness(q)
    ensures IsLeft(OpLevel(p)) <==> Tightness(p) != 2
    ensures OpLevel(p) > 2 <==> Tightness(p) >= 2
  {}

  /** The tighter of two operators takes the operand between them; of two as tight, the left one does. */
  lemma TighterFirst(a: Cst, p: BinaryOp, b: Cst, q: BinaryOp, c: Cst)
    requires Operand(a) && Operand(b) && Operand(c)
    ensures Tightness(p) < Tightness(q) ==>
      ParseTokens(Spell3(a, p, b, q, c)) == Ok(Binary(p, Ast(a), Binary(q, Ast(b), Ast(c))))
    ensures Tightness(p) > Tightness(q) || (Tightness(p) == Tightness(q) && Tightness(p) != 2) ==>
      ParseTokens(Spell3(a, p, b, q, c)) == Ok(Binary(q, Binary(p, Ast(a), Ast(b)), Ast(c)))
  {
    LevelOrder(p, q);
    LevelOrder(q, p);
    if Tightness(p) < Tightness(q) {
      SentenceParses(CBinary(p, a, CBinary(q, b, c)), 0, []);
    } else if Tightness(p) > Tightness(q) || Tightness(p) != 2 {
      SentenceParses(CBinary(q, CBinary(p, a, b), c), 0, []);
    }
  }

  /** Comparisons do not chain. */
  lemma ComparisonsDoNotChain(a: Cst, p: BinaryOp, b: Cst, q: BinaryOp, c: Cst)
    requires Operand(a) && Operand(b) && Operand(c) && Tightness(p) == 2 && Tightness(q) == 2
    ensures ParseTokens(Spell3(a, p, b, q, c)) == Err
  {
    var rest := [Op(q)] + Spell(c, []);
    var ts, node := Spell3(a, p, b, q, c), Binary(p, Ast(a), Ast(b));
    LevelOrder(p, q);
    LevelOrder(q, p);
    ComparisonParses(p, a, b, rest);
    SpellStarts(a, [Op(p)] + Spell(b, rest));
    assert Head(rest) == Op(q) && Head(ts) != NotWord;
    assert ParseAt(2, ts) == Parsed(node, rest);
    assert ParseAt(1, ts) == ChainAt(1, node, rest) == Parsed(node, rest);
    assert ParseAt(0, ts) == ChainAt(0, node, rest) == Parsed(node, rest);
  }

  /** `not` reaches over comparisons and sums but not over `and` and `or`; a minus only over its operand. */
  lemma PrefixReach(a: Cst, p: BinaryOp, b: Cst)
    requires Operand(a) && Operand(b)
    ensures ParseTokens([NotWord] + Spell(a, [Op(p)] + Spell(b, []))) ==
      Ok(if p.And? || p.Or? then Binary(p, Unary(Not, Ast(a)), Ast(b)) else Unary(Not, Binary(p, Ast(a), Ast(b))))
    ensures ParseTokens([Op(Arith(Ring(Sub)))] + Spell(a, [Op(p)] + Spell(b, []))) ==
      Ok(Binary(p, Unary(Neg, Ast(a)), Ast(b)))
  {
    LevelOrder(p, p);
    if p.And? || p.Or? {
      SentenceParses(CBinary(p, CUnary(Not, a), b), 0, []);
    } else {
      SentenceParses(CUnary(Not, CBinary(p, a, b)), 0, []);
    }
    SentenceParses(CBinary(p, CUnary(Neg, a), b), 0, []);
  }

  // ----- printing with minimal parentheses -----

  /** Trees a rule author can write: literals are non-negative scalars, paths are non-empty. */
  predicate Writable(n: Node) {
    match n
    case Literal(v) => (v.Int? && 0 <= v.n) || (v.Float? && 0.0 <= v.r) || v.Str? || v.Bool? || v.Null?
    case Ident(path) => path != []
    case ListLit(elems) => forall e :: e in elems ==> Writable(e)
    case Call(_, args) => forall e :: e in args ==> Writable(e)
    case Unary(_, x) => Writable(x)
    case Binary(_, l, r) => Writable(l) && Writable(r)
  }

  /** The token the lexer makes of a literal's decimal text: numbers go through float64. */
  function TokenOf(v: Value): Token {
    match v
    case Int(n) => Number(Float64(n) as real, true)
    case Float(r) => Number(r, false)
    case Str(s) => Text(s)
    case Bool(b) => if b then TrueWord else FalseWord
    case _ => NullWord
  }

  function NodeLevel(n: Node): Level {
    match n case Unary(op, _) => PrefixLevel(op) case Binary(op, _, _) => OpLevel(op) case _ => 7
  }

  /** Parentheses only where a child binds more loosely than its place allows. */
  function Print(n: Node, l: Level): Cst
    decreases n, 1
  {
    if NodeLevel(n) >= l then PrintBare(n) else CParen(PrintBare(n))
  }

  function PrintBare(n: Node): Cst
    decreases n, 0
  {
    match n
    case Literal(v) => CLiteral(TokenOf(v))
    case Ident(path) => CPath(path)
    case ListLit(elems) => CList(PrintAll(elems))
    case Call(fn, args) => CCall(fn, PrintAll(args))
    case Unary(op, x) => CUnary(op, Print(x, PrefixLevel(op)))
    case Binary(op, l, r) =>
      CBinary(op, Print(l, if IsLeft(OpLevel(op)) then OpLevel(op) else OpLevel(op) + 1), Print(r, OpLevel(op) + 1))
  }

  function PrintAll(ns: seq<Node>): seq<Cst>
    decreases ns, 2
  {
    if ns == [] then [] else [Print(ns[0], 0)] + PrintAll(ns[1..])
  }

  /** A tree whose integer literals have been through float64, as every literal the lexer reads has. */
  function Rounded(n: Node): Node
    decreases n, 0
  {
    match n
    case Literal(v) =>
      if v.Int? then Literal(Int(if Float64(v.n) <= MAX_INT64 then Float64(v.n) else OUT_OF_RANGE)) else n
    case Ident(_) => n
    case ListLit(elems) => ListLit(RoundedAll(elems))
    case Call(fn, args) => Call(fn, RoundedAll(args))
    case Unary(op, x) => Unary(op, Rounded(x))
    case Binary(op, l, r) => Binary(op, Rounded(l), Rounded(r))
  }

  function RoundedAll(ns: seq<Node>): seq<Node>
    decreases ns, 1
  {
    if ns == [] then [] else [Rounded(ns[0])] + RoundedAll(ns[1..])
  }

  lemma LiteralPrints(v: Value)
    requires Writable(Literal(v))
    ensures LiteralOf(TokenOf(v)).Some? && Literal(LiteralOf(TokenOf(v)).value) == Rounded(Literal(v))
  {
    if v.Int? { assert (Float64(v.n) as real).Floor == Float64(v.n); }
  }

  lemma {:induction false} PrintMeans(n: Node, l: Level)
    requires Writable(n)
    ensures WellFormed(Print(n, l)) && LevelOf(Print(n, l)) >= l && Ast(Print(n, l)) == Rounded(n)
    decreases n, 0
  {
    match n
    case Literal(v) => LiteralPrints(v);
    case Ident(_) =>
    case ListLit(elems) => PrintAllMeans(elems);
    case Call(_, args) => PrintAllMeans(args);
    case Unary(op, x) => PrintMeans(x, PrefixLevel(op));
    case Binary(op, a, b) =>
      PrintMeans(a, if IsLeft(OpLevel(op)) then OpLevel(op) else OpLevel(op) + 1);
      PrintMeans(b, OpLevel(op) + 1);
  }

  lemma {:induction false} PrintAllMeans(ns: seq<Node>)
    requires forall n :: n in ns ==> Writable(n)
    ensures forall c :: c in PrintAll(ns) ==> WellFormed(c)
    ensures Asts(PrintAll(ns)) == RoundedAll(ns)
    decreases ns, 1
  {
    if ns != [] {
      PrintMeans(ns[0], 0);
      PrintAllMeans(ns[1..]);
      assert PrintAll(ns)[1..] == PrintAll(ns[1..]);
    }
  }

  /** Every integer literal is an int64 that float64 holds exactly. */
  predicate ExactLiterals(n: Node) {
    match n
    case Literal(v) => v.Int? ==> v.n <= MAX_INT64 && Float64(v.n) == v.n
    case Ident(_) => true
    case ListLit(elems) => forall e :: e in elems ==> ExactLiterals(e)
    case Call(_, args) => forall e :: e in args ==> ExactLiterals(e)
    case Unary(_, x) => ExactLiterals(x)
    case Binary(_, l, r) => ExactLiterals(l) && ExactLiterals(r)
  }

  lemma {:induction false} RoundedExactly(n: Node)
    requires Writable(n)
    ensures Rounded(n) == n <==> ExactLiterals(n)
    decreases n, 0
  {
    match n
    case Literal(_) =>
    case Ident(_) =>
    case ListLit(elems) => RoundedAllExactly(elems);
    case Call(_, args) => RoundedAllExactly(args);
    case Unary(_, x) => RoundedExactly(x);
    case Binary(_, l, r) => RoundedExactly(l); RoundedExactly(r);
  }

  lemma {:induction false} RoundedAllExactly(ns: seq<Node>)
    requires forall n :: n in ns ==> Writable(n)
    ensures RoundedAll(ns) == ns <==> forall n :: n in ns ==> ExactLiterals(n)
    decreases ns, 1
  {
    if ns != [] {
      RoundedExactly(ns[0]);
      RoundedAllExactly(ns[1..]);
      assert RoundedAll(ns)[1..] == RoundedAll(ns[1..]);
      assert ns == [ns[0]] + ns[1..];
    }
  }

  /** Printing and parsing returns the tree, exactly when float64 holds every integer literal in it. */
  lemma PrintParseRoundTrip(n: Node)
    requires Writable(n)
    ensures ParseTokens(Spell(Print(n, 0), [])) == Ok(Rounded(n))
    ensures ParseTokens(Spell(Print(n, 0), [])) == Ok(n) <==> ExactLiterals(n)
  {
    PrintMeans(n, 0);
    SentenceParses(Print(n, 0), 0, []);
    RoundedExactly(n);
  }

  /** 2^53 + 1 reads back as 2^53. */
  lemma LargeLiteralChanges()
    ensures ParseTokens(Spell(Print(Literal(Int(TWO53 + 1)), 0), [])) == Ok(Literal(Int(TWO53)))
  {
    assert (TWO53 + 1) / 2 < TWO53;
    assert Unit(TWO53 + 1) == 2;
    assert Float64(TWO53 + 1) == TWO53;
    PrintParseRoundTrip(Literal(Int(TWO53 + 1)));
  }

  /** No sentence for the same tree is shorter than the printed one. */
  lemma {:induction false} PrintIsShortest(c: Cst, l: Level)
    requires WellFormed(c) && LevelOf(c) >= l
    ensures Size(Print(Ast(c), l)) <= Size(c)
    decreases c, 0
  {
    match c
    case CLiteral(_) =>
    case CPath(_) =>
    case CCall(_, args) => PrintAllShortest(args);
    case CList(items) => PrintAllShortest(items);
    case CParen(inner) => PrintIsShortest(inner, 0);
    case CUnary(op, x) => PrintIsShortest(x, PrefixLevel(op));
    case CBinary(op, a, b) =>
      PrintIsShortest(a, if IsLeft(OpLevel(op)) then OpLevel(op) else OpLevel(op) + 1);
      PrintIsShortest(b, OpLevel(op) + 1);
  }

  lemma {:induction false} PrintAllShortest(cs: seq<Cst>)
    requires forall c :: c in cs ==> WellFormed(c)
    ensures Sizes(PrintAll(Asts(cs))) <= Sizes(cs) && |PrintAll(Asts(cs))| == |cs|
    decreases cs, 1
  {
    if cs != [] {
      PrintIsShortest(cs[0], 0);
      PrintAllShortest(cs[1..]);
      var ps := PrintAll(Asts(cs));
      assert Asts(cs)[1..] == Asts(cs[1..]);
      assert ps[1..] == PrintAll(Asts(cs[1..]));
    }
  }

  // ----- the parser itself: a cursor into the lexer's tokens -----

  function Prepend<T>(xs: seq<T>, o: Outcome<seq<T>>): Outcome<seq<T>> {
    match o case Failed => Failed case Parsed(ys, rest) => Parsed(xs + ys, rest)
  }

  lemma PrependNothing<T>(o: Outcome<seq<T>>)
    ensures Prepend([], o) == o
  {
    if o.Parsed? { assert [] + o.value == o.value; }
  }

  lemma PrependMore<T>(xs: seq<T>, x: T, o: Outcome<seq<T>>)
    ensures Prepend(xs, Prepend([x], o)) == Prepend(xs + [x], o)
  {
    if o.Parsed? { assert xs + ([x] + o.value) == xs + [x] + o.value; }
  }

  lemma LevelOps(t: Token)
    ensures OpAt(t, 4) <==> t == Op(Arith(Ring(Add))) || t == MINUS
    ensures OpAt(t, 5) <==> t == Op(Arith(Ring(Mul))) || t == Op(Arith(Div))
  {
    if t.Op? && t.op.Arith? {
      match t.op.arith case Ring(Add) => case Ring(Sub) => case Ring(Mul) => case Div =>
    }
  }

  class Parser {
    const toks: seq<Token>
    var pos: nat

    constructor (toks: seq<Token>)
      requires Lexed(toks)
      ensures Valid() && Left() == toks[..|toks| - 1]
    {
      this.toks, pos := toks, 0;
    }

    ghost predicate Valid()
      reads this
    {
      Lexed(toks) && pos < |toks|
    }

    /** What the cursor has not passed, without the end token. */
    ghost function Left(): seq<Token>
      requires Valid()
      reads this
    {
      toks[pos..|toks| - 1]
    }

    /** The method's result and cursor are what the specification gives. */
    ghost predicate Reads<T(!new)>(o: Outcome<T>, r: Result<T>)
      requires Valid()
      reads this
    {
      match o case Failed => r == Err case Parsed(v, rest) => r == Ok(v) && Left() == rest
    }

    function Cur(): (t: Token)
      requires Valid()
      reads this
      ensures t == Head(Left())
    {
      toks[pos]
    }

    /** The cursor stays on the end token. */
    method Advance()
      requires Valid()
      modifies this`pos
      ensures Valid() && Left() == if old(Left()) == [] then [] else old(Left())[1..]
    {
      if pos < |toks| - 1 {
        pos := pos + 1;
      }
    }

    method ParseOr() returns (r: Result<Node>)
      requires Valid()
      modifies this`pos
      ensures Valid() && Reads(ParseAt(0, old(Left())), r)
      decreases |Left()|, 8
    {
      r := ParseAnd();
      if r.Err? { return; }
      var left := r.value;
      while Cur() == Op(Or)
        invariant Valid() && |Left()| < |old(Left())|
        invariant ParseAt(0, old(Left())) == ChainAt(0, left, Left())
        decreases |Left()|
      {
        Advance();
        r := ParseAnd();
        if r.Err? { return; }
        left := Binary(Or, left, r.value);
      }
      return Ok(left);
    }

    method ParseAnd() returns (r: Result<Node>)
      requires Valid()
      modifies this`pos
      ensures Valid() && Reads(ParseAt(1, old(Left())), r)
      decreases |Left()|, 7
    {
      r := ParseNot();
      if r.Err? { return; }
      var left := r.value;
      while Cur() == Op(And)
        invariant Valid() && |Left()| < |old(Left())|
        invariant ParseAt(1, old(Left())) == ChainAt(1, left, Left())
        decreases |Left()|
      {
        Advance();
        r := ParseNot();
        if r.Err? { return; }
        left := Binary(And, left, r.value);
      }
      return Ok(left);
    }

    method ParseNot() returns (r: Result<Node>)
      requires Valid()
      modifies this`pos
      ensures Valid() && Reads(ParseAt(2, old(Left())), r)
      decreases |Left()|, 6
    {
      if Cur() == NotWord {
        Advance();
        r := ParseNot();
        return if r.Err? then Err else Ok(Unary(Not, r.value));
      }
      r := ParseComparison();
    }

    method ParseComparison() returns (r: Result<Node>)
      requires Valid()
      modifies this`pos
      ensures Valid() && Reads(ParseAt(3, old(Left())), r)
      decreases |Left()|, 5
    {
      r := ParseAdditive();
      if r.Err? { return; }
      var left := r.value;
      if OpAt(Cur(), 3) {
        var op := Cur().op;
        Advance();
        r := ParseAdditive();
        return if r.Err? then Err else Ok(Binary(op, left, r.value));
      }
    }

    method ParseAdditive() returns (r: Result<Node>)
      requires Valid()
      modifies this`pos
      ensures Valid() && Reads(ParseAt(4, old(Left())), r)
      decreases |Left()|, 4
    {
      r := ParseMultiplicative();
      if r.Err? { return; }
      var left := r.value;
      while Cur() == Op(Arith(Ring(Add))) || Cur() == MINUS
        invariant Valid() && |Left()| < |old(Left())|
        invariant ParseAt(4, old(Left())) == ChainAt(4, left, Left())
        decreases |Left()|
      {
        LevelOps(Cur());
        var op := if Cur() == MINUS then Arith(Ring(Sub)) else Arith(Ring(Add));
        Advance();
        r := ParseMultiplicative();
        if r.Err? { return; }
        left := Binary(op, left, r.value);
      }
      LevelOps(Cur());
      return Ok(left);
    }

    method ParseMultiplicative() returns (r: Result<Node>)
      requires Valid()
      modifies this`pos
      ensures Valid() && Reads(ParseAt(5, old(Left())), r)
      decreases |Left()|, 3
    {
      r := ParseUnary();
      if r.Err? { return; }
      var left := r.value;
      while Cur() == Op(Arith(Ring(Mul))) || Cur() == Op(Arith(Div))
        invariant Valid() && |Left()| < |old(Left())|
        invariant ParseAt(5, old(Left())) == ChainAt(5, left, Left())
        decreases |Left()|
      {
        LevelOps(Cur());
        var op := if Cur() == Op(Arith(Div)) then Arith(Div) else Arith(Ring(Mul));
        Advance();
        r := ParseUnary();
        if r.Err? { return; }
        left := Binary(op, left, r.value);
      }
      LevelOps(Cur());
      return Ok(left);
    }

    method ParseUnary() returns (r: Result<Node>)
      requires Valid()
      modifies this`pos
      ensures Valid() && Reads(ParseAt(6, old(Left())), r)
      decreases |Left()|, 2
    {
      if Cur() == MINUS {
        Advance();
        r := ParseUnary();
        return if r.Err? then Err else Ok(Unary(Neg, r.value));
      }
      r := ParsePrimary();
    }

    method ParsePrimary() returns (r: Result<Node>)
      requires Valid()
      modifies this`pos
      ensures Valid() && Reads(PrimaryAt(old(Left())), r)
      decreases |Left()|, 1
    {
      var tok := Cur();
      if tok == LParen {
        Advance();
        r := ParseOr();
        if r.Err? { return; }
        if Cur() != RParen { return Err; }
        Advance();
      } else if tok == LBracket {
        Advance();
        var items := ParseItems(RBracket);
        return if items.Err? then Err else Ok(ListLit(items.value));
      } else if tok.Name? {
        Advance();
        r := ParseName(tok.text);
      } else if LiteralOf(tok).Some? {
        Advance();
        return Ok(Literal(LiteralOf(tok).value));
      } else {
        return Err;
      }
    }

    method ParseName(name: string) returns (r: Result<Node>)
      requires Valid()
      modifies this`pos
      ensures Valid() && Reads(NameAt(name, old(Left())), r)
      decreases |Left()|, 10
    {
      if Cur() == LParen {
        Advance();
        var args := ParseItems(RParen);
        return if args.Err? then Err else Ok(Call(name, args.value));
      }
      var path := [name];
      assert path[1..] == [];
      PrependNothing(StepsAt(Left()));
      while Cur() == Dot
        invariant Valid() && path != [] && path[0] == name
        invariant StepsAt(old(Left())) == Prepend(path[1..], StepsAt(Left()))
        decreases |Left()|
      {
        Advance();
        if !Cur().Name? { return Err; }
        ghost var rest := Left()[1..];
        PrependMore(path[1..], Cur().text, StepsAt(rest));
        assert (path + [Cur().text])[1..] == path[1..] + [Cur().text];
        path := path + [Cur().text];
        Advance();
      }
      assert path[1..] + [] == path[1..] && path == [name] + path[1..];
      return Ok(Ident(path));
    }

    method ParseItems(close: Token) returns (r: Result<seq<Node>>)
      requires Valid() && close in {RParen, RBracket}
      modifies this`pos
      ensures Valid() && Reads(ItemsAt(close, old(Left())), r)
      decreases |Left()|, 9
    {
      var items := [];
      PrependNothing(ListAt(Left()));
      if Cur() != close {
        while true
          invariant Valid() && |Left()| <= |old(Left())|
          invariant ListAt(old(Left())) == Prepend(items, ListAt(Left()))
          decreases |Left()|
        {
          var item := ParseOr();
          if item.Err? { return Err; }
          ghost var rest := Left();
          if rest != [] { PrependMore(items, item.value, ListAt(rest[1..])); }
          items := items + [item.value];
          if Cur() != Comma { break; }
          Advance();
        }
      }
      if Cur() != close { return Err; }
      Advance();
      return Ok(items);
    }
  }

  /** Parse: the whole token list must be one expression. */
  method Parse(toks: seq<Token>) returns (r: Result<Node>)
    requires Lexed(toks)
    ensures r == ParseTokens(toks[..|toks| - 1])
  {
    var p := new Parser(toks);
    r := p.ParseOr();
    if r.Ok? && p.Cur() != End { return Err; }
  }
}
