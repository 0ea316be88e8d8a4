/** Which statements render at all, in terms of the conditions and values they were built from. */
module StatementErrors {
  import opened Results
  import opened SqlText
  import opened Predicates
  import opened Rendering
  import opened Statements

  /** A raw value has an argument for each of its placeholders. */
  ghost predicate Fillable(a: Assignment) {
    a.SetRaw? ==> forall k: nat :: Hole(k) in a.fragment ==> 1 <= k <= |a.rawArgs|
  }

  ghost predicate AllFillable(assignments: seq<Assignment>) {
    forall a <- assignments :: Fillable(a)
  }

  lemma ValueErrorIff(d: Dialect, a: Assignment)
    ensures ValueError(a).None? <==> Fillable(a)
  {
    if a.SetRaw? {
      RawRefused(d, a.fragment, a.rawArgs);
    }
  }

  lemma {:induction false} SeparatedErrorIff(d: Dialect, groups: seq<seq<Piece>>)
    ensures LayoutError(d, Separated(groups)).None? <==> forall g <- groups :: LayoutError(d, g).None?
    decreases |groups|
  {
    hide LayoutError;
    EmptyLayout(d, 0);
    if |groups| == 1 {
      assert groups[0] in groups;
    } else if |groups| > 1 {
      SeparatedErrorIff(d, groups[1..]);
      LayoutConcat(d, groups[0] + [Fixed([Comma])], Separated(groups[1..]), 0);
      LayoutConcat(d, groups[0], [Fixed([Comma])], 0);
      LayoutSingle(d, Fixed([Comma]), 0);
      assert forall g :: g in groups <==> g == groups[0] || g in groups[1..];
    }
  }

  lemma SetsErrorIff(d: Dialect, assignments: seq<Assignment>)
    ensures LayoutError(d, SetLayout(assignments)).None? <==> AllFillable(assignments)
  {
    hide LayoutError, Fillable, ValueError;
    var groups := SetGroups(assignments);
    SeparatedErrorIff(d, groups);
    forall i | 0 <= i < |assignments|
      ensures LayoutError(d, groups[i]).None? <==> Fillable(assignments[i])
    {
      var a := assignments[i];
      var name: seq<Token> := [Name(a.col.name), Sym(Eq)];
      assert groups[i] == [Fixed(name)] + [ValueOf(a)];
      LayoutConcat(d, [Fixed(name)], [ValueOf(a)], 0);
      LayoutSingle(d, Fixed(name), 0);
      LayoutSingle(d, ValueOf(a), 0);
      ValueErrorIff(d, a);
    }
    assert forall i :: 0 <= i < |assignments| ==> groups[i] in groups && assignments[i] in assignments;
  }

  lemma RowErrorIff(d: Dialect, row: seq<Assignment>)
    ensures LayoutError(d, RowLayout(row)).None? <==> AllFillable(row)
  {
    hide LayoutError, Fillable, ValueError;
    var groups := ValueGroups(row);
    SeparatedErrorIff(d, groups);
    forall i | 0 <= i < |row|
      ensures LayoutError(d, groups[i]).None? <==> Fillable(row[i])
    {
      LayoutSingle(d, ValueOf(row[i]), 0);
      ValueErrorIff(d, row[i]);
    }
    assert forall i :: 0 <= i < |row| ==> groups[i] in groups && row[i] in row;
    LayoutConcat(d, [Fixed([LParen])] + Separated(groups), [Fixed([RParen])], 0);
    LayoutConcat(d, [Fixed([LParen])], Separated(groups), 0);
    LayoutSingle(d, Fixed([LParen]), 0);
    LayoutSingle(d, Fixed([RParen]), 0);
  }

  lemma RowsErrorIff(d: Dialect, rows: seq<seq<Assignment>>)
    ensures LayoutError(d, RowsLayout(rows)).None? <==> forall row <- rows :: AllFillable(row)
  {
    hide LayoutError, AllFillable, RowLayout;
    var groups := RowGroups(rows);
    SeparatedErrorIff(d, groups);
    forall i | 0 <= i < |rows|
      ensures LayoutError(d, groups[i]).None? <==> AllFillable(rows[i])
    {
      RowErrorIff(d, rows[i]);
    }
    assert forall i :: 0 <= i < |rows| ==> groups[i] in groups && rows[i] in rows;
  }

  lemma ClauseErrorIff(d: Dialect, keyword: string, p: Predicate)
    ensures LayoutError(d, ConditionClause(keyword, p)).None? <==> Renderable(d, p)
  {
    RendersIff(d, p);
    hide Renderable, LayoutError;
    EmptyLayout(d, 0);
    assert [Fixed([Word(keyword)]), Condition(p)] == [Fixed([Word(keyword)])] + [Condition(p)];
    LayoutConcat(d, [Fixed([Word(keyword)])], [Condition(p)], 0);
    LayoutSingle(d, Fixed([Word(keyword)]), 0);
    LayoutSingle(d, Condition(p), 0);
  }

  lemma {:induction false} JoinsErrorIff(d: Dialect, joins: seq<JoinClause>)
    ensures LayoutError(d, JoinLayout(joins)).None? <==> forall j <- joins :: Renderable(d, j.on)
    decreases |joins|
  {
    hide LayoutError, Renderable, JoinHead, FirstError;
    EmptyLayout(d, 0);
    if joins != [] {
      var j := joins[0];
      JoinsErrorIff(d, joins[1..]);
      RendersIff(d, j.on);
      LayoutConcat(d, [Fixed(JoinHead(j)), Condition(j.on)], JoinLayout(joins[1..]), 0);
      assert [Fixed(JoinHead(j)), Condition(j.on)] == [Fixed(JoinHead(j))] + [Condition(j.on)];
      LayoutConcat(d, [Fixed(JoinHead(j))], [Condition(j.on)], 0);
      LayoutSingle(d, Fixed(JoinHead(j)), 0);
      LayoutSingle(d, Condition(j.on), 0);
      assert forall x :: x in joins <==> x == j || x in joins[1..];
    }
  }

  /** A SELECT renders, locks aside, if and only if each of its conditions does. */
  lemma SelectErrorIff(d: Dialect, b: SelectBuilder)
    ensures LayoutError(d, SelectLayout(b)).None?
       <==> Renderable(d, b.where) && Renderable(d, b.having) && forall j <- b.joins :: Renderable(d, j.on)
  {
    hide LayoutError, Renderable, JoinLayout, ConditionClause, SelectHead, SelectTail, ListClause;
    var head, joins, where := Fixed(SelectHead(b)), JoinLayout(b.joins), ConditionClause("WHERE", b.where);
    var group, having, tail := Fixed(ListClause("GROUP BY", ColumnTexts(b.groupBy))), ConditionClause("HAVING", b.having), Fixed(SelectTail(b));
    JoinsErrorIff(d, b.joins);
    ClauseErrorIff(d, "WHERE", b.where);
    ClauseErrorIff(d, "HAVING", b.having);
    LayoutSingle(d, head, 0);
    LayoutSingle(d, group, 0);
    LayoutSingle(d, tail, 0);
    LayoutConcat(d, [head], joins, 0);
    LayoutConcat(d, [head] + joins, where, 0);
    LayoutConcat(d, [head] + joins + where, [group], 0);
    LayoutConcat(d, [head] + joins + where + [group], having, 0);
    LayoutConcat(d, [head] + joins + where + [group] + having, [tail], 0);
  }

  /** The assignments an INSERT writes for rows that conflict. */
  function Overwrites(b: InsertBuilder): seq<Assignment> {
    if b.conflictCols != [] && !b.conflictDoNothing then b.conflictUpdate else []
  }

  lemma ConflictErrorIff(d: Dialect, b: InsertBuilder)
    ensures LayoutError(d, ConflictLayout(d, b)).None? <==> AllFillable(Overwrites(b))
  {
    assert AllFillable([]);
    hide LayoutError, AllFillable, SetLayout, NameTexts, Join;
    var target := Fixed([Word("ON CONFLICT"), LParen] + Join(NameTexts(b.conflictCols), Comma) + [RParen]);
    var nothing, update, duplicate := Fixed([Word("DO NOTHING")]), Fixed([Word("DO UPDATE SET")]), Fixed([Word("ON DUPLICATE KEY UPDATE")]);
    var sets := SetLayout(b.conflictUpdate);
    SetsErrorIff(d, b.conflictUpdate);
    EmptyLayout(d, 0);
    LayoutSingle(d, target, 0);
    LayoutSingle(d, nothing, 0);
    LayoutSingle(d, update, 0);
    LayoutSingle(d, duplicate, 0);
    LayoutConcat(d, [target], [nothing], 0);
    LayoutConcat(d, [target], [update] + sets, 0);
    LayoutConcat(d, [update], sets, 0);
    LayoutConcat(d, [duplicate], sets, 0);
  }

  ghost predicate InsertFits(b: InsertBuilder) {
    (forall row <- b.rows :: AllFillable(row)) && AllFillable(Overwrites(b))
  }

  /** An INSERT renders, RETURNING aside, if and only if every raw value it writes has its arguments. */
  lemma InsertErrorIff(d: Dialect, b: InsertBuilder)
    ensures LayoutError(d, InsertLayout(d, b)).None? <==> InsertFits(b)
  {
    hide LayoutError, AllFillable, RowsLayout, ConflictLayout, InsertHead, ListClause, Overwrites;
    var head, rows, conflict := Fixed(InsertHead(d, b)), RowsLayout(b.rows), ConflictLayout(d, b);
    var tail := Fixed(ListClause("RETURNING", ColumnTexts(b.returning)));
    RowsErrorIff(d, b.rows);
    ConflictErrorIff(d, b);
    LayoutSingle(d, head, 0);
    LayoutSingle(d, tail, 0);
    LayoutConcat(d, [head], rows, 0);
    LayoutConcat(d, [head] + rows, conflict, 0);
    LayoutConcat(d, [head] + rows + conflict, [tail], 0);
  }

  lemma UpdateErrorIff(d: Dialect, b: UpdateBuilder)
    ensures LayoutError(d, UpdateLayout(b)).None? <==> Renderable(d, b.where) && AllFillable(b.assignments)
  {
    hide LayoutError, AllFillable, Renderable, SetLayout, ConditionClause;
    var head := Fixed([Word("UPDATE")] + TableText(b.table) + [Word("SET")]);
    SetsErrorIff(d, b.assignments);
    ClauseErrorIff(d, "WHERE", b.where);
    LayoutSingle(d, head, 0);
    LayoutConcat(d, [head], SetLayout(b.assignments), 0);
    LayoutConcat(d, [head] + SetLayout(b.assignments), ConditionClause("WHERE", b.where), 0);
  }

  lemma DeleteErrorIff(d: Dialect, b: DeleteBuilder)
    ensures LayoutError(d, DeleteLayout(b)).None? <==> Renderable(d, b.where)
  {
    hide LayoutError, Renderable, ConditionClause;
    var head := Fixed([Word("DELETE FROM")] + TableText(b.table));
    ClauseErrorIff(d, "WHERE", b.where);
    LayoutSingle(d, head, 0);
    LayoutConcat(d, [head], ConditionClause("WHERE", b.where), 0);
  }
}
