/** The asset_group builtin in its two renderings (detect/env.go). */
module CdlFunctions {
  import opened Common
  import opened CdlExpr
  import opened CdlSql
  import opened CdlCompile

  const ASSET_GROUPS: map<string, seq<string>> :=
    map["ci-runners" := ["198.51.100.9"], "corporate-egress" := ["203.0.113.44"]]

  function Group(name: string): seq<string> { if name in ASSET_GROUPS then ASSET_GROUPS[name] else [] }

  function Strings(items: seq<string>): seq<Value> { seq(|items|, i requires 0 <= i < |items| => Str(items[i])) }

  function Texts(items: seq<string>): seq<SqlExpr> { seq(|items|, i requires 0 <= i < |items| => Lit(SText(items[i]))) }

  /** asset_group(name): the group's members, or an empty list for an unknown name. */
  function AssetGroup(args: seq<Value>): Result<Value> {
    if |args| != 1 || !args[0].Str? then Err else Ok(List(Strings(Group(args[0].s))))
  }

  /** strings.ReplaceAll(s, "'", "''"). */
  function DoubleQuotes(s: string): string {
    if s == "" then "" else (if s[0] == '\'' then "''" else [s[0]]) + DoubleQuotes(s[1..])
  }

  function TrimLeft(s: string): string { if s != "" && s[0] == '\'' then TrimLeft(s[1..]) else s }

  function TrimRight(s: string): string { if s != "" && s[|s| - 1] == '\'' then TrimRight(s[..|s| - 1]) else s }

  /** strings.Trim(s, "'"). */
  function TrimQuotes(s: string): string { TrimRight(TrimLeft(s)) }

  /** The SQL side reads the group name back from the rendered literal; no other argument names a group. */
  function AssetGroupSQL(args: seq<SqlExpr>): (r: Result<SqlExpr>)
    ensures r.Ok? <==> |args| == 1
    ensures r.Ok? && !(args[0].Lit? && args[0].v.SText?) ==> r == Ok(Tuple([]))
  {
    if |args| != 1 then Err
    else if args[0].Lit? && args[0].v.SText? then
      Ok(Tuple(Texts(Group(TrimQuotes("'" + DoubleQuotes(args[0].v.s) + "'")))))
    else Ok(Tuple([]))
  }

  lemma {:induction false} DoubleQuotesKeeps(s: string)
    ensures '\'' in s <==> '\'' in DoubleQuotes(s)
    ensures '\'' !in s ==> DoubleQuotes(s) == s
  {
    if s != "" {
      assert s == [s[0]] + s[1..];
      DoubleQuotesKeeps(s[1..]);
    }
  }

  lemma {:induction false} DoubleQuotesSplit(a: string, b: string)
    ensures DoubleQuotes(a + b) == DoubleQuotes(a) + DoubleQuotes(b)
  {
    if a == "" {
      assert a + b == b;
    } else {
      assert (a + b)[1..] == a[1..] + b;
      DoubleQuotesSplit(a[1..], b);
    }
  }

  lemma TrimRightQuote(u: string)
    ensures TrimRight(u + "'") == TrimRight(u)
  {
    assert (u + "'")[..|u|] == u;
  }

  lemma TrimLeftQuote(u: string)
    ensures TrimLeft("'" + u) == TrimLeft(u)
  {
    assert ("'" + u)[1..] == u;
  }

  lemma {:induction false} TrimLeftDoubled(s: string)
    ensures TrimLeft(DoubleQuotes(s)) == DoubleQuotes(TrimLeft(s))
  {
    if s != "" && s[0] == '\'' {
      TrimLeftDoubled(s[1..]);
      assert DoubleQuotes(s) == "'" + ("'" + DoubleQuotes(s[1..]));
      TrimLeftQuote("'" + DoubleQuotes(s[1..]));
      TrimLeftQuote(DoubleQuotes(s[1..]));
    }
  }

  lemma {:induction false} TrimRightDoubled(s: string)
    ensures TrimRight(DoubleQuotes(s)) == DoubleQuotes(TrimRight(s))
  {
    if s != "" {
      var n := |s| - 1;
      assert s == s[..n] + [s[n]];
      DoubleQuotesSplit(s[..n], [s[n]]);
      assert DoubleQuotes([s[n]]) == (if s[n] == '\'' then "''" else [s[n]]) + DoubleQuotes([]);
      if s[n] == '\'' {
        TrimRightDoubled(s[..n]);
        assert DoubleQuotes(s) == DoubleQuotes(s[..n]) + "'" + "'";
        TrimRightQuote(DoubleQuotes(s[..n]) + "'");
        TrimRightQuote(DoubleQuotes(s[..n]));
      }
    }
  }

  lemma {:induction false} TrimClosingQuote(u: string)
    ensures TrimQuotes(u + "'") == TrimQuotes(u)
  {
    if u == "" {
      assert u + "'" == "'" && "'"[1..] == "";
    } else if u[0] == '\'' {
      assert (u + "'")[1..] == u[1..] + "'";
      TrimClosingQuote(u[1..]);
    } else {
      TrimRightQuote(u);
    }
  }

  /** What the SQL side reads back: the name without its outer quotes, inner ones doubled. */
  lemma NameReadBack(s: string)
    ensures TrimQuotes("'" + DoubleQuotes(s) + "'") == DoubleQuotes(TrimQuotes(s))
  {
    TrimClosingQuote("'" + DoubleQuotes(s));
    TrimLeftQuote(DoubleQuotes(s));
    TrimLeftDoubled(s);
    TrimRightDoubled(TrimLeft(s));
  }

  /** Trimming leaves a name alone, or does not turn it into the name of a group. */
  predicate TrimHarmless(name: string) { TrimQuotes(name) == name || TrimQuotes(name) !in ASSET_GROUPS }

  lemma {:induction false} TrimLeftQuoteFree(s: string)
    requires '\'' !in s
    ensures TrimLeft(s) == s && TrimRight(s) == s
  {
    if s != "" { assert s[0] in s && s[|s| - 1] in s; }
  }

  lemma GroupNames(name: string)
    ensures name in ASSET_GROUPS ==> '\'' !in name && Group(name) != []
  {}

  lemma GroupReadBack(name: string)
    ensures Group(TrimQuotes("'" + DoubleQuotes(name) + "'")) == Group(name) <==> TrimHarmless(name)
  {
    var core := TrimQuotes(name);
    NameReadBack(name);
    DoubleQuotesKeeps(core);
    GroupNames(DoubleQuotes(core));
    GroupNames(core);
    GroupNames(name);
    if name in ASSET_GROUPS { TrimLeftQuoteFree(name); }
    if core == name && '\'' !in name { assert DoubleQuotes(core) == name; }
  }

  lemma MembersRepresented(items: seq<string>, row: Row, eng: Engine)
    ensures Represents(Tuple(Texts(items)), List(Strings(items)), row, eng)
  {}

  lemma MembersIdentify(a: seq<string>, b: seq<string>, row: Row, eng: Engine)
    requires Represents(Tuple(Texts(a)), List(Strings(b)), row, eng)
    ensures a == b
  {
    forall i | 0 <= i < |b| ensures a[i] == b[i] {
      assert Represents(Texts(a)[i], Strings(b)[i], row, eng);
    }
  }

  /** A literal group name means the same list on both sides exactly when trimming its quotes names no other group. */
  lemma AssetGroupAgreesExactly(name: string, row: Row, eng: Engine)
    ensures AssetGroup([Str(name)]).Ok? && AssetGroupSQL([Lit(SText(name))]).Ok?
    ensures Represents(AssetGroupSQL([Lit(SText(name))]).value, AssetGroup([Str(name)]).value, row, eng) <==>
      TrimHarmless(name)
  {
    var read, items := Group(TrimQuotes("'" + DoubleQuotes(name) + "'")), Group(name);
    GroupReadBack(name);
    assert AssetGroup([Str(name)]) == Ok(List(Strings(items)));
    assert AssetGroupSQL([Lit(SText(name))]) == Ok(Tuple(Texts(read)));
    if read == items {
      MembersRepresented(items, row, eng);
    } else if Represents(Tuple(Texts(read)), List(Strings(items)), row, eng) {
      MembersIdentify(read, items, row, eng);
    }
  }

  /** Calls with one string literal that trimming does not turn into another group's name. */
  predicate LiteralGroup(fn: string, args: seq<Node>) {
    fn == "asset_group" && |args| == 1 && args[0].Literal? && args[0].value.Str? && TrimHarmless(args[0].value.s)
  }

  /** On such calls the two registries agree, whatever the row and the environments. */
  lemma AssetGroupAgrees(eng: Engine)
    ensures FunctionsAgree(map["asset_group" := AssetGroup], map["asset_group" := AssetGroupSQL], LiteralGroup, eng)
  {
    var funcs: map<string, Func>, fsql: map<string, FuncSQL> :=
      map["asset_group" := AssetGroup], map["asset_group" := AssetGroupSQL];
    forall fn: string, args: seq<Node>, env, cols, row |
      LiteralGroup(fn, args) && ArgsRepresented(args, Context(env, funcs), Target(cols, fsql), row, eng)
      ensures CallAgrees(fn, args, Context(env, funcs), Target(cols, fsql), row, eng)
    {
      var name := args[0].value.s;
      assert EvalAll(args, Context(env, funcs)).value == [Str(name)];
      assert ToSQLAll(args, Target(cols, fsql)).value == [Lit(SText(name))];
      AssetGroupAgreesExactly(name, row, eng);
    }
  }
}
