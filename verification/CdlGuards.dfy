/**
 The guard idiom `<source>.last_<field> != null`: anchor matches that lack a case field form groups with a NULL key,
 whose tracked columns are all NULL, so a rule that guards its emits this way claims nothing about them.
 */
module CdlGuards {
  import opened Common
  import opened Seqs
  import opened CdlExpr
  import opened CdlEvents
  import opened CdlAggregate
  import opened CdlStreaming
  import opened CdlSql
  import opened CdlCompile
  import opened CdlQuery
  import opened CdlGroups
  import opened CdlGroupRecord
  import opened CdlJoin
  import opened CdlCase
  import opened CdlRule
  import opened CdlEquivalence

  /** `when` is a conjunction one part of which is `anchor.last_x != null`. */
  predicate Guarded(when: Node, anchor: string, x: string) {
    match when
    case Binary(op, l, r) =>
      (op.And? && (Guarded(l, anchor, x) || Guarded(r, anchor, x))) ||
      (op.Ne? && l == Ident([anchor, "last_" + x]) && IsNullLiteral(r))
    case _ => false
  }

  lemma {:induction false} NothingCorrelates(table: seq<Record>, where: SqlExpr, cols: seq<string>, key: Record,
      eng: Engine)
    requires exists c :: c in cols && At(key, c).SNull?
    ensures Filter(table, Correlated(where, cols, key, eng)) == []
  {
    if table != [] {
      NothingCorrelates(table[..|table| - 1], where, cols, key, eng);
      var c :| c in cols && At(key, c).SNull?;
      assert !JoinEqual(At(table[|table| - 1], c), At(key, c), eng);
    }
  }

  /** `=` on a NULL key selects nothing, so every tracked column of such a group is NULL. */
  lemma {:induction false} LastsNull(ls: seq<LastColumn>, cols: seq<string>, key: Record, table: seq<Record>,
      eng: Engine, c: string)
    requires exists n :: n in cols && At(key, n).SNull?
    ensures At(LastOutputs(ls, cols, key, table, eng), c) == SNull
  {
    if ls != [] {
      LastsNull(ls[1..], cols, key, table, eng, c);
      NothingCorrelates(table, ls[0].where, cols, key, eng);
    }
  }

  lemma UnkeyedNull(c: Corpus, src: Source, cte: Cte, key: Record) returns (n: string)
    requires key in AnchorKeys(c, src, cte) && !Keyed(key)
    ensures n in FlatNames(src.groupBy) && At(key, n).SNull? && key.Keys == Elems(FlatNames(src.groupBy))
  {
    var rows := Filter(c.table, Admits(cte.where, "", c.eng));
    GroupKeysElems(rows, FlatNames(src.groupBy));
    n :| n in key && key[n].SNull?;
  }

  /** A tracked column of a group's record is the one its own subquery computes. */
  lemma RecordLast(cte: Cte, key: Record, table: seq<Record>, matching: seq<Record>, eng: Engine, x: string)
    requires forall n :: n in LastOutputs(cte.lasts, cte.groupBy, key, table, eng) ==> HasPrefix(n, "last_")
    requires var group := Filter(matching, HasGroupKey(cte.groupBy, key));
      forall n :: n in DistinctOutputs(cte.distincts, group) ==> HasPrefix(n, "distinct_")
    requires x != "ts" && forall m :: m in key ==> !ReservedOutput(m)
    ensures At(GroupRecord(cte, key, table, matching, eng), "last_" + x) ==
      At(LastOutputs(cte.lasts, cte.groupBy, key, table, eng), "last_" + x)
  {
    var group := Filter(matching, HasGroupKey(cte.groupBy, key));
    var basic: Record :=
      map["count" := SInt(|group|), "first_ts" := SqlMin(group, "time", eng), "last_ts" := SqlMax(group, "time", eng)];
    ComposedColumns(LastOutputs(cte.lasts, cte.groupBy, key, table, eng), DistinctOutputs(cte.distincts, group), basic,
      key, x);
  }

  lemma UnkeyedColumns(c: Corpus, src: Source, cte: Cte, key: Record, x: string)
    requires CompileSource(src, c.fsql) == Ok(cte) && x != "ts" && forall m :: m in key ==> !ReservedOutput(m)
    requires exists n :: n in cte.groupBy && At(key, n).SNull?
    ensures At(GroupRecordOf(c, cte)(key), "last_" + x) == SNull
  {
    var matching := Filter(c.table, Admits(cte.where, "", c.eng));
    LastsNull(cte.lasts, cte.groupBy, key, c.table, c.eng, "last_" + x);
    LastOutputsAt(src, src.trackLast, c.fsql, cte.groupBy, key, c.table, c.eng, x);
    DistinctOutputsAt(src.trackDistinct, Filter(matching, HasGroupKey(cte.groupBy, key)), x);
    RecordLast(cte, key, c.table, matching, c.eng, x);
  }

  lemma UnkeyedRow(rule: Rule, c: Corpus, anchor: string, cte: Cte, key: Record, x: string)
    requires AnchorReady(rule, c, anchor, cte) && x != "ts"
    requires key in AnchorKeys(c, rule.sources[anchor], cte) && !Keyed(key)
    ensures At(GroupRecordOf(c, cte)(key), "last_" + x) == SNull
  {
    var src := rule.sources[anchor];
    var n := UnkeyedNull(c, src, cte, key);
    forall m | m in key ensures !ReservedOutput(m) { var f := PathNamed(src.groupBy, m); }
    UnkeyedColumns(c, src, cte, key, x);
  }

  // ----- through the joins -----

  lemma {:induction false} JoinRowsKeep(rows: seq<Row>, anchor: string, j: Join, recs: seq<Record>, eng: Engine,
      col: Column)
    requires j.name != col.table && forall r :: r in rows ==> Lookup(r, col) == SNull
    ensures forall r :: r in JoinRows(rows, anchor, j, recs, eng) ==> Lookup(r, col) == SNull
  {
    if rows != [] {
      var n := |rows| - 1;
      JoinRowsKeep(rows[..n], anchor, j, recs, eng, col);
      assert rows[n] in rows;
    }
  }

  lemma {:induction false} JoinAllKeeps(rows: seq<Row>, anchor: string, joins: seq<Join>,
      results: map<string, seq<Record>>, eng: Engine, col: Column)
    requires (forall j :: j in joins ==> j.name != col.table) && forall r :: r in rows ==> Lookup(r, col) == SNull
    ensures forall r :: r in JoinAll(rows, anchor, joins, results, eng) ==> Lookup(r, col) == SNull
    decreases joins
  {
    if joins != [] {
      var recs := if joins[0].name in results then results[joins[0].name] else [];
      assert joins[0] in joins;
      JoinRowsKeep(rows, anchor, joins[0], recs, eng, col);
      JoinAllKeeps(JoinRows(rows, anchor, joins[0], recs, eng), anchor, joins[1..], results, eng, col);
    }
  }

  // ----- the guard fails -----

  lemma AndHolds(l: SqlExpr, r: SqlExpr, row: Row, eng: Engine)
    ensures Holds(AndX(l, r), row, eng) ==> Holds(l, row, eng) && Holds(r, row, eng)
  {}

  lemma {:induction false} GuardFails(when: Node, anchor: string, x: string, t: Target, row: Row, eng: Engine)
    requires Guarded(when, anchor, x) && ToSQL(when, t).Ok?
    requires t.cols([anchor, "last_" + x]) == Ok(Col(Column(anchor, "last_" + x))) &&
      Lookup(row, Column(anchor, "last_" + x)) == SNull
    ensures !Holds(ToSQL(when, t).value, row, eng)
  {
    if when.op.And? {
      AndHolds(ToSQL(when.l, t).value, ToSQL(when.r, t).value, row, eng);
      if Guarded(when.l, anchor, x) {
        GuardFails(when.l, anchor, x, t, row, eng);
      } else {
        GuardFails(when.r, anchor, x, t, row, eng);
      }
    } else {
      var column := Col(Column(anchor, "last_" + x));
      assert ToSQL(when.l, t) == Ok(column) && ToSQL(when, t) == Ok(IsNullX(column, true));
      assert SqlEval(column, row, eng) == SNull && SqlEval(IsNullX(column, true), row, eng) == SInt(0);
    }
  }

  lemma {:induction false} NoneSelected(rule: Rule, emits: string, q: Query, rows: seq<Row>, eng: Engine)
    requires forall r :: r in rows ==> !Holds(q.where, r, eng)
    ensures SelectClaims(rule, emits, q, rows, eng) == []
  {
    if rows != [] {
      NoneSelected(rule, emits, q, rows[..|rows| - 1], eng);
      assert rows[|rows| - 1] in rows;
    }
  }

  lemma QueryGuarded(rule: Rule, emit: Emit, anchor: string, q: Query, fsql: FuncsSQL, x: string, row: Row, eng: Engine)
    requires WellFormed(rule) && anchor in rule.sources && CompileEmit(rule, emit, anchor, fsql) == Ok(q)
    requires Guarded(emit.when, anchor, x) && x != "ts" && Lookup(row, Column(anchor, "last_" + x)) == SNull
    ensures !Holds(q.where, row, eng)
  {
    var t := AggregateTarget(rule.sources, fsql);
    OutputNamesApart(x);
    assert "last_" + x != "exists" by { assert ("last_" + x)[0] == 'l'; }
    assert t.cols([anchor, "last_" + x]) == Ok(Col(Column(anchor, "last_" + x)));
    GuardFails(emit.when, anchor, x, t, row, eng);
    if rule.suppress != [] {
      AndHolds(ToSQL(emit.when, t).value, NotX(OrAll(ToSQLAll(rule.suppress, t).value)), row, eng);
    }
  }

  // ----- so nothing is claimed -----

  lemma UnkeyedSilent(rule: Rule, c: Corpus, anchor: string, cte: Cte, emit: Emit, q: Query,
      results: map<string, seq<Record>>, key: Record, x: string)
    requires AnchorReady(rule, c, anchor, cte) && CompileEmit(rule, emit, anchor, c.fsql) == Ok(q)
    requires Guarded(emit.when, anchor, x) && x != "ts" && key in AnchorKeys(c, rule.sources[anchor], cte) &&
      !Keyed(key)
    ensures KeyBagOf(rule, c, cte, emit.emits, q, results)(key) == multiset{}
  {
    var rec := GroupRecordOf(c, cte)(key);
    UnkeyedRow(rule, c, anchor, cte, key, x);
    JoinsForAt(anchor, rule.names, rule.sources);
    assert q.anchor == anchor && q.joins == JoinsFor(anchor, rule.names, rule.sources);
    QualifyReads(anchor, rec, "last_" + x);
    RecordSilent(rule, c.fsql, c.eng, anchor, emit, q, results, Qualify(anchor, rec), x);
  }

  lemma RecordSilent(rule: Rule, fsql: FuncsSQL, eng: Engine, anchor: string, emit: Emit, q: Query,
      results: map<string, seq<Record>>, row: Row, x: string)
    requires WellFormed(rule) && anchor in rule.sources && CompileEmit(rule, emit, anchor, fsql) == Ok(q)
    requires Guarded(emit.when, anchor, x) && x != "ts" && Lookup(row, Column(anchor, "last_" + x)) == SNull
    requires forall j :: j in q.joins ==> j.name != anchor
    ensures SelectClaims(rule, emit.emits, q, JoinAll([row], anchor, q.joins, results, eng), eng) == []
  {
    var rows := JoinAll([row], anchor, q.joins, results, eng);
    JoinAllKeeps([row], anchor, q.joins, results, eng, Column(anchor, "last_" + x));
    forall r | r in rows ensures !Holds(q.where, r, eng) { QueryGuarded(rule, emit, anchor, q, fsql, x, r, eng); }
    NoneSelected(rule, emit.emits, q, rows, eng);
  }

  /** Every emit clause whose query is kept is guarded. */
  ghost predicate EmitsGuarded(emits: seq<Emit>, anchor: string) {
    forall i :: 0 <= i < |emits| && LastOfName(emits, i) ==> exists x :: x != "ts" && Guarded(emits[i].when, anchor, x)
  }

  /** A guarded rule makes no claim about anchor matches that lack a case field, whatever the events. */
  lemma GuardedMeansNoUnkeyed(rule: Rule, c: Corpus, anchor: string, compiled: Compiled)
    requires anchor in compiled.ctes && AnchorReady(rule, c, anchor, compiled.ctes[anchor]) &&
      EmitsGuarded(rule.emits, anchor)
    requires CompileRule(rule, c.fsql) == Ok(compiled)
    ensures UnkeyedClaims(rule, c, anchor, compiled) == multiset{}
  {
    var src, cte := rule.sources[anchor], compiled.ctes[anchor];
    forall e | e in rule.emits ensures UnkeyedEmit(rule, c, src, cte, compiled)(e) == multiset{} {
      var i :| 0 <= i < |rule.emits| && rule.emits[i] == e;
      var k := LastIndex(rule.emits, i);
      GuardedEmitSilent(rule, c, anchor, compiled, k);
    }
    SumEmpty(rule.emits, UnkeyedEmit(rule, c, src, cte, compiled));
  }

  lemma GuardedEmitSilent(rule: Rule, c: Corpus, anchor: string, compiled: Compiled, k: nat)
    requires anchor in compiled.ctes && AnchorReady(rule, c, anchor, compiled.ctes[anchor]) &&
      EmitsGuarded(rule.emits, anchor)
    requires CompileRule(rule, c.fsql) == Ok(compiled) && k < |rule.emits| && LastOfName(rule.emits, k)
    ensures UnkeyedEmit(rule, c, rule.sources[anchor], compiled.ctes[anchor], compiled)(rule.emits[k]) == multiset{}
  {
    var src, cte, emit := rule.sources[anchor], compiled.ctes[anchor], rule.emits[k];
    LastEmitWins(map[], rule, rule.emits, anchor, c.fsql, k);
    var q, results := compiled.queries[emit.emits], Results(compiled.ctes, c.table, c.eng);
    var x :| x != "ts" && Guarded(emit.when, anchor, x);
    var g := KeyBagOf(rule, c, cte, emit.emits, q, results);
    forall key | key in AnchorKeys(c, src, cte) ensures UnkeyedBag(g)(key) == multiset{} {
      if !Keyed(key) { UnkeyedSilent(rule, c, anchor, cte, emit, q, results, key, x); }
    }
    SumEmpty(AnchorKeys(c, src, cte), UnkeyedBag(g));
  }

  /** So for a guarded rule anchor matches may lack case fields: the two paths still agree. */
  lemma GuardedEquivalence(rule: Rule, c: Corpus, anchor: string, columns: set<string>, streamed: seq<Claim>,
      queried: seq<Claim>)
    requires RuleOk(rule, c, anchor) && DistinctEmits(rule.emits) && EmitsGuarded(rule.emits, anchor)
    requires Streaming(rule, c.events, c.funcs) == Ok(streamed)
    requires RunTable(rule, c.table, columns, c.fsql, c.eng) == Ok(queried)
    requires anchor in rule.sources && QuietUnanchored(rule, c, rule.sources[anchor])
    ensures Bag(streamed) == Bag(queried)
  {
    RuleEquivalence(rule, c, anchor, columns, streamed, queried);
    GuardedSilent(rule, c, anchor, CompileRule(rule, c.fsql).value);
    NoUnanchored(rule, c, anchor);
    DistinctAllKept(rule.emits);
  }

  lemma GuardedSilent(rule: Rule, c: Corpus, anchor: string, compiled: Compiled)
    requires RuleOk(rule, c, anchor) && EmitsGuarded(rule.emits, anchor) && CompileRule(rule, c.fsql) == Ok(compiled)
    requires anchor in compiled.ctes && anchor in rule.sources
    ensures UnkeyedClaims(rule, c, anchor, compiled) == multiset{}
  {
    RuleFacts(rule, c, anchor, compiled.ctes);
    GuardedMeansNoUnkeyed(rule, c, anchor, compiled);
  }
}
