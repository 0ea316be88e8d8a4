/**
 The Render methods of the statement builders (pack/internal/sqlbuild/select.go,
 insert.go, update.go, delete.go), proved against the layouts of Statements and read back
 as what they were built from.
 */
module Builders {
  import opened Results
  import opened SqlText
  import opened Predicates
  import opened Rendering
  import opened Statements
  import opened StatementErrors
  import opened SqlReader
  import opened ReadBack

  type Statement = (seq<Token>, seq<Value>)

  // ----- Comma-separated groups: text, arguments and errors, group by group -----

  function GroupTexts(d: Dialect, groups: seq<seq<Piece>>, base: nat): (r: seq<seq<Token>>)
    ensures |r| == |groups|
  {
    if groups == [] then []
    else [LayoutText(d, groups[0], base)] + GroupTexts(d, groups[1..], base + |LayoutArgs(groups[0])|)
  }

  function GroupArgs(groups: seq<seq<Piece>>): seq<Value> {
    if groups == [] then [] else LayoutArgs(groups[0]) + GroupArgs(groups[1..])
  }

  function GroupError(d: Dialect, groups: seq<seq<Piece>>): Option<RenderError> {
    if groups == [] then None
    else if LayoutError(d, groups[0]).Some? then LayoutError(d, groups[0])
    else GroupError(d, groups[1..])
  }

  lemma {:induction false} SeparatedText(d: Dialect, groups: seq<seq<Piece>>, base: nat)
    ensures LayoutText(d, Separated(groups), base) == Join(GroupTexts(d, groups, base), Comma)
    decreases |groups|
  {
    hide PieceText, PieceArgs, PieceError, LayoutArgs, LayoutError, LayoutText;
    if |groups| == 0 {
      EmptyLayout(d, base);
    } else if |groups| == 1 {
      GroupStep(d, groups, 0, base);
      assert groups[0..] == groups && groups[1..] == [];
    } else {
      var first, comma := groups[0], Fixed([Comma]);
      var rest := Separated(groups[1..]);
      var after := base + |LayoutArgs(first)|;
      SeparatedText(d, groups[1..], after);
      var texts := GroupTexts(d, groups[1..], after);
      LayoutConcat(d, first + [comma], rest, base);
      LayoutConcat(d, first, [comma], base);
      FixedAlone(d, [Comma], after);
      assert |LayoutArgs(first + [comma])| == |LayoutArgs(first)|;
      GroupStep(d, groups, 0, base);
      assert groups[0..] == groups;
      JoinFirst(LayoutText(d, first, base), texts);
      hide Join, Separated, GroupTexts;
      assert LayoutText(d, Separated(groups), base) == LayoutText(d, first, base) + [Comma] + Join(texts, Comma);
    }
  }

  lemma JoinFirst(first: seq<Token>, rest: seq<seq<Token>>)
    requires rest != []
    ensures Join([first] + rest, Comma) == first + [Comma] + Join(rest, Comma)
  {
    assert ([first] + rest)[1..] == rest;
  }

  lemma {:induction false} SeparatedArgs(d: Dialect, groups: seq<seq<Piece>>)
    ensures LayoutArgs(Separated(groups)) == GroupArgs(groups)
    ensures LayoutError(d, Separated(groups)) == GroupError(d, groups)
    decreases |groups|
  {
    hide PieceText, PieceArgs, PieceError, LayoutArgs, LayoutError, LayoutText, GroupTexts;
    if |groups| == 0 {
      EmptyLayout(d, 0);
    } else if |groups| == 1 {
      GroupStep(d, groups, 0, 0);
      assert groups[0..] == groups && groups[1..] == [];
    } else {
      var first, comma := groups[0], Fixed([Comma]);
      SeparatedArgs(d, groups[1..]);
      LayoutConcat(d, first + [comma], Separated(groups[1..]), 0);
      LayoutConcat(d, first, [comma], 0);
      FixedAlone(d, [Comma], 0);
      assert LayoutArgs(first + [comma]) == LayoutArgs(first);
      GroupStep(d, groups, 0, 0);
      assert groups[0..] == groups;
    }
  }

  /** Taking the ith group off the groups still to be written. */
  lemma GroupStep(d: Dialect, groups: seq<seq<Piece>>, i: nat, base: nat)
    requires i < |groups|
    ensures GroupTexts(d, groups[i..], base)
         == [LayoutText(d, groups[i], base)] + GroupTexts(d, groups[i + 1..], base + |LayoutArgs(groups[i])|)
    ensures GroupArgs(groups[i..]) == LayoutArgs(groups[i]) + GroupArgs(groups[i + 1..])
    ensures GroupError(d, groups[i..])
         == if LayoutError(d, groups[i]).Some? then LayoutError(d, groups[i]) else GroupError(d, groups[i + 1..])
  {
    hide LayoutText, LayoutArgs, LayoutError;
    assert groups[i..][0] == groups[i] && groups[i..][1..] == groups[i + 1..];
  }

  lemma GroupsStart(d: Dialect, groups: seq<seq<Piece>>, base: nat)
    ensures groups[0..] == groups
    ensures LayoutText(d, Separated(groups), base) == Join(GroupTexts(d, groups, base), Comma)
    ensures LayoutArgs(Separated(groups)) == GroupArgs(groups)
    ensures LayoutError(d, Separated(groups)) == GroupError(d, groups)
  {
    hide LayoutText, LayoutArgs, LayoutError, GroupTexts, GroupArgs, GroupError;
    SeparatedText(d, groups, base);
    SeparatedArgs(d, groups);
  }

  lemma GroupsDone(d: Dialect, groups: seq<seq<Piece>>, base: nat)
    ensures GroupTexts(d, groups[|groups|..], base) == [] && GroupArgs(groups[|groups|..]) == []
    ensures GroupError(d, groups[|groups|..]).None?
  {
  }

  lemma FixedAlone(d: Dialect, ts: seq<Token>, base: nat)
    ensures LayoutText(d, [Fixed(ts)], base) == ts && LayoutArgs([Fixed(ts)]) == [] && LayoutError(d, [Fixed(ts)]).None?
  {
    LayoutSingle(d, Fixed(ts), base);
  }

  // ----- The loops of the builders -----

  /** A renderer wrote the pieces of a layout after the arguments it already had, or met their first error. */
  ghost predicate Appended(d: Dialect, layout: seq<Piece>, before: seq<Value>, after: seq<Value>, res: Result<seq<Token>, RenderError>) {
    && (LayoutError(d, layout).Some? ==> res == Failure(LayoutError(d, layout).value))
    && (LayoutError(d, layout).None? ==> res == Success(LayoutText(d, layout, |before|)) && after == before + LayoutArgs(layout))
  }

  method RenderSets(r: Renderer, assignments: seq<Assignment>) returns (res: Result<seq<Token>, RenderError>)
    modifies r
    ensures Appended(r.d, SetLayout(assignments), old(r.args), r.args, res)
  {
    hide PieceText, PieceArgs, PieceError, ValueText, ValueArgs, ValueError, LayoutText, LayoutArgs, LayoutError,
         GroupTexts, GroupArgs, GroupError, Separated;
    ghost var groups := SetGroups(assignments);
    GroupsStart(r.d, groups, |r.args|);
    var sets: seq<seq<Token>> := [];
    for i := 0 to |assignments|
      invariant GroupError(r.d, groups[i..]) == GroupError(r.d, groups)
      invariant r.args + GroupArgs(groups[i..]) == old(r.args) + GroupArgs(groups)
      invariant sets + GroupTexts(r.d, groups[i..], |r.args|) == GroupTexts(r.d, groups, |old(r.args)|)
    {
      GroupStep(r.d, groups, i, |r.args|);
      AssignmentGroup(r.d, assignments[i], |r.args|);
      var s := r.RenderAssignment(assignments[i]);
      if s.Failure? {
        return s;
      }
      sets := sets + [s.value];
    }
    GroupsDone(r.d, groups, |r.args|);
    assert sets == GroupTexts(r.d, groups, |old(r.args)|) && r.args == old(r.args) + GroupArgs(groups);
    res := Success(Join(sets, Comma));
  }

  lemma AssignmentGroup(d: Dialect, a: Assignment, base: nat)
    ensures var group := [Fixed([Name(a.col.name), Sym(Eq)]), ValueOf(a)];
            && LayoutText(d, group, base) == [Name(a.col.name), Sym(Eq)] + ValueText(d, a, base)
            && LayoutArgs(group) == ValueArgs(a)
            && LayoutError(d, group) == ValueError(a)
  {
    LayoutConcat(d, [Fixed([Name(a.col.name), Sym(Eq)])], [ValueOf(a)], base);
    FixedAlone(d, [Name(a.col.name), Sym(Eq)], base);
    LayoutSingle(d, ValueOf(a), base);
  }

  method RenderRow(r: Renderer, row: seq<Assignment>) returns (res: Result<seq<Token>, RenderError>)
    modifies r
    ensures Appended(r.d, RowLayout(row), old(r.args), r.args, res)
  {
    hide PieceText, PieceArgs, PieceError, ValueText, ValueArgs, ValueError, LayoutText, LayoutArgs, LayoutError,
         GroupTexts, GroupArgs, GroupError, Separated;
    ghost var groups := ValueGroups(row);
    GroupsStart(r.d, groups, |r.args|);
    RowAround(r.d, Separated(groups), |r.args|);
    var vals: seq<seq<Token>> := [];
    for i := 0 to |row|
      invariant GroupError(r.d, groups[i..]) == GroupError(r.d, groups)
      invariant r.args + GroupArgs(groups[i..]) == old(r.args) + GroupArgs(groups)
      invariant vals + GroupTexts(r.d, groups[i..], |r.args|) == GroupTexts(r.d, groups, |old(r.args)|)
    {
      GroupStep(r.d, groups, i, |r.args|);
      ValueGroup(r.d, row[i], |r.args|);
      var v := r.RenderValue(row[i]);
      if v.Failure? {
        return v;
      }
      vals := vals + [v.value];
    }
    GroupsDone(r.d, groups, |r.args|);
    assert vals == GroupTexts(r.d, groups, |old(r.args)|) && r.args == old(r.args) + GroupArgs(groups);
    res := Success([LParen] + Join(vals, Comma) + [RParen]);
  }

  lemma ValueGroup(d: Dialect, a: Assignment, base: nat)
    ensures LayoutText(d, [ValueOf(a)], base) == ValueText(d, a, base)
    ensures LayoutArgs([ValueOf(a)]) == ValueArgs(a) && LayoutError(d, [ValueOf(a)]) == ValueError(a)
  {
    LayoutSingle(d, ValueOf(a), base);
  }

  lemma RowAround(d: Dialect, inner: seq<Piece>, base: nat)
    ensures var layout := [Fixed([LParen])] + inner + [Fixed([RParen])];
            && LayoutText(d, layout, base) == [LParen] + LayoutText(d, inner, base) + [RParen]
            && LayoutArgs(layout) == LayoutArgs(inner)
            && LayoutError(d, layout) == LayoutError(d, inner)
  {
    hide PieceText, PieceArgs, PieceError;
    LayoutConcat(d, [Fixed([LParen])] + inner, [Fixed([RParen])], base);
    LayoutConcat(d, [Fixed([LParen])], inner, base);
    FixedAlone(d, [LParen], base);
    FixedAlone(d, [RParen], base + |LayoutArgs(inner)|);
  }

  method RenderRows(r: Renderer, rows: seq<seq<Assignment>>) returns (res: Result<seq<Token>, RenderError>)
    modifies r
    ensures Appended(r.d, RowsLayout(rows), old(r.args), r.args, res)
  {
    hide PieceText, PieceArgs, PieceError, LayoutText, LayoutArgs, LayoutError, RowLayout,
         GroupTexts, GroupArgs, GroupError, Separated;
    ghost var groups := RowGroups(rows);
    GroupsStart(r.d, groups, |r.args|);
    var rowTexts: seq<seq<Token>> := [];
    for i := 0 to |rows|
      invariant GroupError(r.d, groups[i..]) == GroupError(r.d, groups)
      invariant r.args + GroupArgs(groups[i..]) == old(r.args) + GroupArgs(groups)
      invariant rowTexts + GroupTexts(r.d, groups[i..], |r.args|) == GroupTexts(r.d, groups, |old(r.args)|)
    {
      GroupStep(r.d, groups, i, |r.args|);
      var s := RenderRow(r, rows[i]);
      if s.Failure? {
        return s;
      }
      rowTexts := rowTexts + [s.value];
    }
    GroupsDone(r.d, groups, |r.args|);
    assert rowTexts == GroupTexts(r.d, groups, |old(r.args)|) && r.args == old(r.args) + GroupArgs(groups);
    res := Success(Join(rowTexts, Comma));
  }

  // ----- Writing a statement piece by piece -----

  /** text and args are the pieces written so far, none of which failed. */
  ghost predicate Written(d: Dialect, done: seq<Piece>, text: seq<Token>, args: seq<Value>) {
    text == LayoutText(d, done, 0) && args == LayoutArgs(done) && LayoutError(d, done).None?
  }

  lemma WriteFixed(d: Dialect, done: seq<Piece>, ts: seq<Token>, text: seq<Token>, args: seq<Value>)
    requires Written(d, done, text, args)
    ensures Written(d, done + [Fixed(ts)], text + ts, args)
  {
    hide PieceText, PieceArgs, PieceError;
    LayoutConcat(d, done, [Fixed(ts)], 0);
    FixedAlone(d, ts, |args|);
  }

  lemma WriteMore(d: Dialect, done: seq<Piece>, more: seq<Piece>, text: seq<Token>, args: seq<Value>)
    requires Written(d, done, text, args) && LayoutError(d, more).None?
    ensures Written(d, done + more, text + LayoutText(d, more, |args|), args + LayoutArgs(more))
  {
    hide LayoutText, LayoutArgs, LayoutError;
    LayoutConcat(d, done, more, 0);
  }

  /** The first error met is the error of the whole statement. */
  lemma WriteFails(d: Dialect, done: seq<Piece>, more: seq<Piece>, rest: seq<Piece>, text: seq<Token>, args: seq<Value>)
    requires Written(d, done, text, args) && LayoutError(d, more).Some?
    ensures LayoutError(d, done + more + rest) == LayoutError(d, more)
  {
    hide PieceText, PieceArgs, PieceError;
    LayoutConcat(d, done + more, rest, 0);
    LayoutConcat(d, done, more, 0);
  }

  lemma ConditionPieces(d: Dialect, lead: seq<Token>, p: Predicate, base: nat)
    ensures var more := [Fixed(lead), Condition(p)];
            && LayoutText(d, more, base) == lead + Rendered(d, p, base)
            && LayoutArgs(more) == Args(p)
            && LayoutError(d, more) == FirstError(d, p)
  {
    LayoutConcat(d, [Fixed(lead)], [Condition(p)], base);
    FixedAlone(d, lead, base);
    LayoutSingle(d, Condition(p), base);
  }

  /** How a statement's result relates to its layout, and what executing it amounts to. */
  ghost predicate Renders(d: Dialect, layout: seq<Piece>, res: Result<Statement, RenderError>) {
    && (LayoutError(d, layout).Some? ==> res == Failure(LayoutError(d, layout).value))
    && (LayoutError(d, layout).None? ==> res == Success((LayoutText(d, layout, 0), LayoutArgs(layout))))
    && (res.Success? && (d.numbered || LayoutCountsUp(layout)) ==>
          Executed(d, res.value.0, res.value.1) == LayoutInline(layout))
  }

  lemma Finished(d: Dialect, layout: seq<Piece>, text: seq<Token>, args: seq<Value>)
    requires Written(d, layout, text, args) && FixedPlain(layout)
    ensures Renders(d, layout, Success((text, args)))
  {
    hide PieceText, PieceArgs, PieceError, PieceInline, PieceCountsUp;
    if d.numbered || LayoutCountsUp(layout) {
      StatementBinds(d, layout);
    }
  }

  /** At most one lock, one to go with SKIP LOCKED, and none where the dialect has none. */
  predicate LocksFit(d: Dialect, b: SelectBuilder) {
    && !(b.forUpdate && b.forShare)
    && (b.skipLocked ==> b.forUpdate || b.forShare)
    && (b.forUpdate || b.forShare ==> d.rowLocking)
  }

  method RenderSelectList(b: SelectBuilder) returns (text: seq<Token>)
    ensures text == SelectHead(b)
  {
    text := [Word("SELECT")];
    if b.distinct {
      text := text + [Word("DISTINCT")];
    }
    var selectList: seq<seq<Token>> := [];
    for i := 0 to |b.columns|
      invariant selectList == ColumnTexts(b.columns)[..i]
    {
      selectList := selectList + [[Ident(b.columns[i])]];
    }
    for i := 0 to |b.selectRaw|
      invariant selectList == ColumnTexts(b.columns) + OwnTexts(b.selectRaw)[..i]
    {
      selectList := selectList + [[Own(b.selectRaw[i])]];
    }
    assert selectList == ColumnTexts(b.columns) + OwnTexts(b.selectRaw);
    if |selectList| == 0 {
      text := text + [Word("*")];
    } else {
      text := text + Join(selectList, Comma);
    }
    text := text + [Word("FROM")] + TableText(b.table);
  }

  method RenderTrailer(b: SelectBuilder) returns (text: seq<Token>)
    ensures text == SelectTail(b)
  {
    var orderBy: seq<Token> := [];
    if |b.order| > 0 {
      var terms: seq<seq<Token>> := [];
      for i := 0 to |b.order|
        invariant terms == OrderTexts(b.order)[..i]
      {
        terms := terms + [OrderText(b.order[i])];
      }
      assert terms == OrderTexts(b.order);
      orderBy := [Word("ORDER BY")] + Join(terms, Comma);
    }
    var limit, offset, lock, skip: seq<Token> := [], [], [], [];
    if b.limit.Some? {
      limit := [Word("LIMIT"), Num(b.limit.value)];
    }
    if b.offset.Some? {
      offset := [Word("OFFSET"), Num(b.offset.value)];
    }
    if b.forUpdate {
      lock := [Word("FOR UPDATE")];
    } else if b.forShare {
      lock := [Word("FOR SHARE")];
    }
    if b.skipLocked {
      skip := [Word("SKIP LOCKED")];
    }
    text := orderBy + limit + offset + lock + skip;
  }

  /** The clauses joined one after the other. */
  method RenderJoins(r: Renderer, joins: seq<JoinClause>) returns (res: Result<seq<Token>, RenderError>)
    modifies r
    ensures Appended(r.d, JoinLayout(joins), old(r.args), r.args, res)
  {
    hide PieceText, PieceArgs, PieceError, LayoutText, LayoutArgs, LayoutError, JoinHead, Rendered, FirstError, Args;
    var text: seq<Token> := [];
    ghost var layout := JoinLayout(joins);
    for i := 0 to |joins|
      invariant LayoutError(r.d, JoinLayout(joins[i..])) == LayoutError(r.d, layout)
      invariant r.args + LayoutArgs(JoinLayout(joins[i..])) == old(r.args) + LayoutArgs(layout)
      invariant text + LayoutText(r.d, JoinLayout(joins[i..]), |r.args|) == LayoutText(r.d, layout, |old(r.args)|)
    {
      JoinStep(r.d, joins, i, |r.args|);
      var s := r.RenderJoin(joins[i]);
      if s.Failure? {
        return s;
      }
      text := text + s.value;
    }
    assert joins[|joins|..] == [];
    EmptyLayout(r.d, |r.args|);
    assert text == LayoutText(r.d, layout, |old(r.args)|);
    assert r.args == old(r.args) + LayoutArgs(layout);
    res := Success(text);
  }

  lemma JoinStep(d: Dialect, joins: seq<JoinClause>, i: nat, base: nat)
    requires i < |joins|
    ensures var j, rest := joins[i], JoinLayout(joins[i + 1..]);
            && LayoutText(d, JoinLayout(joins[i..]), base)
               == JoinHead(j) + Rendered(d, j.on, base) + LayoutText(d, rest, base + |Args(j.on)|)
            && LayoutArgs(JoinLayout(joins[i..])) == Args(j.on) + LayoutArgs(rest)
            && LayoutError(d, JoinLayout(joins[i..]))
               == if FirstError(d, j.on).Some? then FirstError(d, j.on) else LayoutError(d, rest)
  {
    hide PieceText, PieceArgs, PieceError, LayoutText, LayoutArgs, LayoutError, JoinHead, Rendered, FirstError, Args;
    var j := joins[i];
    assert joins[i..][0] == j && joins[i..][1..] == joins[i + 1..];
    ConditionPieces(d, JoinHead(j), j.on, base);
    LayoutConcat(d, [Fixed(JoinHead(j)), Condition(j.on)], JoinLayout(joins[i + 1..]), base);
  }

  method RenderSelect(d: Dialect, b: SelectBuilder) returns (res: Result<Statement, RenderError>)
    ensures b.forUpdate && b.forShare ==> res == Failure(ConflictingLockClause)
    ensures b.skipLocked && !b.forUpdate && !b.forShare ==> res == Failure(SkipLockedRequiresLockClause)
    ensures b.forUpdate != b.forShare && !d.rowLocking ==> res == Failure(RowLockingUnsupported)
    ensures LocksFit(d, b) ==> Renders(d, SelectLayout(b), res)
    ensures res.Success? <==> LocksFit(d, b) && Renderable(d, b.where) && Renderable(d, b.having) && forall j <- b.joins :: Renderable(d, j.on)
    ensures res.Success? && (d.numbered || LayoutCountsUp(SelectLayout(b))) ==>
      var m := ReadSelectStatement(Executed(d, res.value.0, res.value.1)); m.Some? && SelectAs(b, m.value)
  {
    SelectErrorIff(d, b);
    SelectPartsRead(b);
    hide Renderable, ReadSelectStatement, SelectAs;
    hide PieceText, PieceArgs, PieceError, PieceInline, PieceCountsUp, LayoutText, LayoutArgs, LayoutError,
         LayoutInline, LayoutCountsUp, SelectHead, SelectTail, ListClause, JoinLayout, ConditionClause;
    if b.forUpdate && b.forShare {
      return Failure(ConflictingLockClause);
    }
    if b.skipLocked && !b.forUpdate && !b.forShare {
      return Failure(SkipLockedRequiresLockClause);
    }
    if (b.forUpdate || b.forShare) && !d.rowLocking {
      return Failure(RowLockingUnsupported);
    }

    var r := new Renderer(d);
    ghost var done: seq<Piece> := [];
    ghost var joins := JoinLayout(b.joins);
    ghost var where, having := ConditionClause("WHERE", b.where), ConditionClause("HAVING", b.having);
    ghost var groupBy, tail := Fixed(ListClause("GROUP BY", ColumnTexts(b.groupBy))), Fixed(SelectTail(b));
    ghost var layout := SelectLayout(b);

    var text := RenderSelectList(b);
    NothingWritten(d);
    WriteFixed(d, done, text, [], []);
    done := done + [Fixed(text)];
    assert done + joins + (where + [groupBy] + having + [tail]) == layout;

    label js:
    var j := RenderJoins(r, b.joins);
    if j.Failure? {
      WriteFails(d, done, joins, where + [groupBy] + having + [tail], text, old@js(r.args));
      return Failure(j.error);
    }
    WriteMore(d, done, joins, text, old@js(r.args));
    text := text + j.value;
    done := done + joins;
    assert done + where + ([groupBy] + having + [tail]) == layout;

    label wh:
    var w := RenderCondition(r, "WHERE", b.where);
    if w.Failure? {
      WriteFails(d, done, where, [groupBy] + having + [tail], text, old@wh(r.args));
      return Failure(w.error);
    }
    WriteMore(d, done, where, text, old@wh(r.args));
    text := text + w.value;
    done := done + where;
    assert done + [groupBy] + having + [tail] == layout;

    var g := RenderColumnList("GROUP BY", b.groupBy);
    WriteFixed(d, done, g, text, r.args);
    text := text + g;
    done := done + [groupBy];

    label hv:
    var h := RenderCondition(r, "HAVING", b.having);
    if h.Failure? {
      WriteFails(d, done, having, [tail], text, old@hv(r.args));
      return Failure(h.error);
    }
    WriteMore(d, done, having, text, old@hv(r.args));
    text := text + h.value;
    done := done + having;

    var trailer := RenderTrailer(b);
    WriteFixed(d, done, trailer, text, r.args);
    text := text + trailer;
    SelectLayoutPlain(b);
    Finished(d, layout, text, r.args);
    res := Success((text, r.args));
  }

  lemma NothingWritten(d: Dialect)
    ensures Written(d, [], [], [])
  {
  }

  method RenderInsertHead(d: Dialect, b: InsertBuilder) returns (text: seq<Token>)
    ensures text == InsertHead(d, b)
  {
    var mysqlStyleConflict := |b.conflictCols| > 0 && !d.onConflict;
    if mysqlStyleConflict && b.conflictDoNothing {
      text := [Word("INSERT IGNORE INTO")];
    } else {
      text := [Word("INSERT INTO")];
    }
    text := text + [Name(b.table)];
    if |b.rows| > 0 {
      var cols: seq<seq<Token>> := [];
      for i := 0 to |b.rows[0]|
        invariant cols == TargetTexts(b.rows[0])[..i]
      {
        cols := cols + [[Name(b.rows[0][i].col.name)]];
      }
      assert cols == TargetTexts(b.rows[0]);
      text := text + ([LParen] + Join(cols, Comma) + [RParen, Word("VALUES")]);
    }
  }

  method RenderNames(cs: seq<Column>) returns (text: seq<Token>)
    ensures text == Join(NameTexts(cs), Comma)
  {
    var names: seq<seq<Token>> := [];
    for i := 0 to |cs|
      invariant names == NameTexts(cs)[..i]
    {
      names := names + [[Name(cs[i].name)]];
    }
    assert names == NameTexts(cs);
    text := Join(names, Comma);
  }

  method RenderColumnList(keyword: string, cs: seq<Column>) returns (text: seq<Token>)
    ensures text == ListClause(keyword, ColumnTexts(cs))
  {
    text := [];
    if |cs| > 0 {
      var cols: seq<seq<Token>> := [];
      for i := 0 to |cs|
        invariant cols == ColumnTexts(cs)[..i]
      {
        cols := cols + [[Ident(cs[i])]];
      }
      assert cols == ColumnTexts(cs);
      text := [Word(keyword)] + Join(cols, Comma);
    }
  }

  method RenderConflict(r: Renderer, b: InsertBuilder) returns (res: Result<seq<Token>, RenderError>)
    modifies r
    ensures Appended(r.d, ConflictLayout(r.d, b), old(r.args), r.args, res)
  {
    hide PieceText, PieceArgs, PieceError, LayoutText, LayoutArgs, LayoutError, SetLayout;
    var mysqlStyleConflict := |b.conflictCols| > 0 && !r.d.onConflict;
    ghost var base := |r.args|;
    EmptyLayout(r.d, base);
    if |b.conflictCols| > 0 && !mysqlStyleConflict {
      var names := RenderNames(b.conflictCols);
      var target := [Word("ON CONFLICT"), LParen] + names + [RParen];
      FixedAlone(r.d, target, base);
      if b.conflictDoNothing {
        FixedAlone(r.d, [Word("DO NOTHING")], base);
        LayoutConcat(r.d, [Fixed(target)], [Fixed([Word("DO NOTHING")])], base);
        return Success(target + [Word("DO NOTHING")]);
      }
      FixedAlone(r.d, [Word("DO UPDATE SET")], base);
      ghost var update := [Fixed([Word("DO UPDATE SET")])] + SetLayout(b.conflictUpdate);
      LayoutConcat(r.d, [Fixed([Word("DO UPDATE SET")])], SetLayout(b.conflictUpdate), base);
      LayoutConcat(r.d, [Fixed(target)], update, base);
      var sets := RenderSets(r, b.conflictUpdate);
      if sets.Failure? {
        return sets;
      }
      return Success(target + ([Word("DO UPDATE SET")] + sets.value));
    } else if mysqlStyleConflict && !b.conflictDoNothing {
      FixedAlone(r.d, [Word("ON DUPLICATE KEY UPDATE")], base);
      LayoutConcat(r.d, [Fixed([Word("ON DUPLICATE KEY UPDATE")])], SetLayout(b.conflictUpdate), base);
      var sets := RenderSets(r, b.conflictUpdate);
      if sets.Failure? {
        return sets;
      }
      return Success([Word("ON DUPLICATE KEY UPDATE")] + sets.value);
    }
    res := Success([]);
  }

  method RenderInsert(d: Dialect, b: InsertBuilder) returns (res: Result<Statement, RenderError>)
    ensures b.returning != [] && !d.returning ==> res == Failure(ReturningUnsupported)
    ensures b.returning == [] || d.returning ==> Renders(d, InsertLayout(d, b), res)
    ensures res.Success? <==> (b.returning == [] || d.returning) && InsertFits(b)
    ensures res.Success? && (d.numbered || LayoutCountsUp(InsertLayout(d, b))) ==> ReadsInsert(d, b, res.value)
  {
    InsertErrorIff(d, b);
    hide InsertFits, ReadsInsert;
    hide PieceText, PieceArgs, PieceError, PieceInline, PieceCountsUp, LayoutText, LayoutArgs, LayoutError,
         LayoutInline, LayoutCountsUp, InsertHead, RowsLayout, ConflictLayout, ListClause;
    if |b.returning| > 0 && !d.returning {
      return Failure(ReturningUnsupported);
    }
    var r := new Renderer(d);
    ghost var done: seq<Piece> := [];
    ghost var rows, conflict := RowsLayout(b.rows), ConflictLayout(d, b);
    ghost var tail := Fixed(ListClause("RETURNING", ColumnTexts(b.returning)));
    ghost var layout := InsertLayout(d, b);

    var text := RenderInsertHead(d, b);
    NothingWritten(d);
    WriteFixed(d, done, text, [], []);
    done := done + [Fixed(text)];
    assert done + rows + (conflict + [tail]) == layout;

    if |b.rows| > 0 {
      label rs:
      var s := RenderRows(r, b.rows);
      if s.Failure? {
        WriteFails(d, done, rows, conflict + [tail], text, old@rs(r.args));
        return Failure(s.error);
      }
      WriteMore(d, done, rows, text, old@rs(r.args));
      text := text + s.value;
    } else {
      NoRows();
      WriteMore(d, done, rows, text, r.args);
    }
    done := done + rows;
    assert done + conflict + [tail] == layout;

    label cf:
    var c := RenderConflict(r, b);
    if c.Failure? {
      WriteFails(d, done, conflict, [tail], text, old@cf(r.args));
      return Failure(c.error);
    }
    WriteMore(d, done, conflict, text, old@cf(r.args));
    text := text + c.value;
    done := done + conflict;

    var ret := RenderColumnList("RETURNING", b.returning);
    WriteFixed(d, done, ret, text, r.args);
    text := text + ret;
    InsertLayoutPlain(d, b);
    Finished(d, layout, text, r.args);
    InsertReadable(d, b, (text, r.args));
    res := Success((text, r.args));
  }

  /** The executed statement is read as exactly what the builder asks for. */
  ghost predicate ReadsInsert(d: Dialect, b: InsertBuilder, s: Statement) {
    Legible(b) ==>
      var m := ReadInsert(Executed(d, s.0, s.1));
      m.Some? && InsertAs(d, b, m.value)
  }

  lemma InsertReadable(d: Dialect, b: InsertBuilder, s: Statement)
    requires Renders(d, InsertLayout(d, b), Success(s))
    ensures d.numbered || LayoutCountsUp(InsertLayout(d, b)) ==> ReadsInsert(d, b, s)
  {
    if Legible(b) {
      InsertReads(d, b);
    }
  }

  lemma NoRows()
    ensures RowsLayout([]) == []
    ensures forall d, base :: LayoutText(d, [], base) == []
    ensures LayoutArgs([]) == [] && forall d :: LayoutError(d, []).None?
  {
  }

  /** An optional WHERE or HAVING. */
  method RenderCondition(r: Renderer, keyword: string, p: Predicate) returns (res: Result<seq<Token>, RenderError>)
    modifies r
    ensures Appended(r.d, ConditionClause(keyword, p), old(r.args), r.args, res)
  {
    hide LayoutText, LayoutArgs, LayoutError, Rendered, FirstError, Args;
    EmptyLayout(r.d, |r.args|);
    if p.IsZero() {
      return Success([]);
    }
    ConditionPieces(r.d, [Word(keyword)], p, |r.args|);
    var s := r.RenderPredicate(p);
    if s.Failure? {
      return s;
    }
    res := Success([Word(keyword)] + s.value);
  }

  method RenderUpdate(d: Dialect, b: UpdateBuilder) returns (res: Result<Statement, RenderError>)
    ensures Renders(d, UpdateLayout(b), res)
    ensures res.Success? <==> Renderable(d, b.where) && AllFillable(b.assignments)
    ensures res.Success? && (d.numbered || LayoutCountsUp(UpdateLayout(b))) && AllHaveText(b.assignments) ==>
      var m := ReadUpdate(Executed(d, res.value.0, res.value.1)); m.Some? && m.value.0 == b.table && SetsAs(m.value.1, b.assignments)
  {
    UpdateErrorIff(d, b);
    if AllHaveText(b.assignments) {
      UpdateSets(b);
    }
    hide AllFillable, Renderable, AllHaveText, SetsAs, ReadUpdate;
    hide PieceText, PieceArgs, PieceError, PieceInline, PieceCountsUp, LayoutText, LayoutArgs, LayoutError,
         LayoutInline, LayoutCountsUp, SetLayout, ConditionClause;
    var r := new Renderer(d);
    ghost var done: seq<Piece> := [];
    ghost var setList, where := SetLayout(b.assignments), ConditionClause("WHERE", b.where);
    ghost var layout := UpdateLayout(b);

    var text := [Word("UPDATE")] + TableText(b.table) + [Word("SET")];
    NothingWritten(d);
    WriteFixed(d, done, text, [], []);
    done := done + [Fixed(text)];
    assert done + setList + where == layout;

    label st:
    var sets := RenderSets(r, b.assignments);
    if sets.Failure? {
      WriteFails(d, done, setList, where, text, old@st(r.args));
      return Failure(sets.error);
    }
    WriteMore(d, done, setList, text, old@st(r.args));
    text := text + sets.value;
    done := done + setList;

    label wh:
    var w := RenderCondition(r, "WHERE", b.where);
    if w.Failure? {
      WriteFails(d, done, where, [], text, old@wh(r.args));
      assert done + where + [] == layout;
      return Failure(w.error);
    }
    WriteMore(d, done, where, text, old@wh(r.args));
    text := text + w.value;
    UpdateLayoutPlain(b);
    Finished(d, layout, text, r.args);
    res := Success((text, r.args));
  }

  method RenderDelete(d: Dialect, b: DeleteBuilder) returns (res: Result<Statement, RenderError>)
    ensures Renders(d, DeleteLayout(b), res)
    ensures res.Success? <==> Renderable(d, b.where)
    ensures res.Success? && (d.numbered || LayoutCountsUp(DeleteLayout(b))) ==>
      ReadDelete(Executed(d, res.value.0, res.value.1)) == Some(b.table)
  {
    DeleteErrorIff(d, b);
    DeleteFrom(b);
    hide Renderable, ReadDelete;
    hide PieceText, PieceArgs, PieceError, PieceInline, PieceCountsUp, LayoutText, LayoutArgs, LayoutError,
         LayoutInline, LayoutCountsUp, ConditionClause;
    var r := new Renderer(d);
    ghost var done: seq<Piece> := [];
    ghost var where := ConditionClause("WHERE", b.where);
    ghost var layout := DeleteLayout(b);

    var text := [Word("DELETE FROM")] + TableText(b.table);
    NothingWritten(d);
    WriteFixed(d, done, text, [], []);
    done := done + [Fixed(text)];
    label wh:
    var w := RenderCondition(r, "WHERE", b.where);
    if w.Failure? {
      WriteFails(d, done, where, [], text, old@wh(r.args));
      assert done + where + [] == layout;
      return Failure(w.error);
    }
    WriteMore(d, done, where, text, old@wh(r.args));
    text := text + w.value;
    assert done + where == layout;
    DeleteLayoutPlain(b);
    Finished(d, layout, text, r.args);
    res := Success((text, r.args));
  }
}
