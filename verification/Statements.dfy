/**
 Whole statements: SELECT, INSERT, UPDATE and DELETE as their builders render them.
 A statement is laid out as pieces; what is proved about pieces holds of every builder.
 */
module Statements {
  import opened Results
  import opened SqlText
  import opened Predicates
  import opened Rendering
  import opened SqlMeaning

  datatype Piece =
    | Fixed(ts: seq<Token>)
    | Condition(p: Predicate)
    | ValueOf(a: Assignment)

  function PieceError(d: Dialect, x: Piece): Option<RenderError> {
    match x
    case Fixed(_) => None
    case Condition(p) => FirstError(d, p)
    case ValueOf(a) => ValueError(a)
  }

  function PieceArgs(x: Piece): seq<Value> {
    match x
    case Fixed(_) => []
    case Condition(p) => Args(p)
    case ValueOf(a) => ValueArgs(a)
  }

  function PieceText(d: Dialect, x: Piece, base: nat): seq<Token> {
    match x
    case Fixed(ts) => ts
    case Condition(p) => Rendered(d, p, base)
    case ValueOf(a) => ValueText(d, a, base)
  }

  function PieceInline(x: Piece): seq<Token> {
    match x
    case Fixed(ts) => ts
    case Condition(p) => Inline(p)
    case ValueOf(a) => ValueInline(a)
  }

  predicate PieceCountsUp(x: Piece) {
    match x
    case Fixed(_) => true
    case Condition(p) => RawsCountUp(p)
    case ValueOf(a) => ValueCountsUp(a)
  }

  function LayoutError(d: Dialect, xs: seq<Piece>): Option<RenderError> {
    if xs == [] then None
    else if PieceError(d, xs[0]).Some? then PieceError(d, xs[0])
    else LayoutError(d, xs[1..])
  }

  function LayoutArgs(xs: seq<Piece>): seq<Value> {
    if xs == [] then [] else PieceArgs(xs[0]) + LayoutArgs(xs[1..])
  }

  function LayoutText(d: Dialect, xs: seq<Piece>, base: nat): seq<Token> {
    if xs == [] then []
    else PieceText(d, xs[0], base) + LayoutText(d, xs[1..], base + |PieceArgs(xs[0])|)
  }

  function LayoutInline(xs: seq<Piece>): seq<Token> {
    if xs == [] then [] else PieceInline(xs[0]) + LayoutInline(xs[1..])
  }

  predicate LayoutCountsUp(xs: seq<Piece>) {
    xs == [] || (PieceCountsUp(xs[0]) && LayoutCountsUp(xs[1..]))
  }

  /** The fixed text of a layout holds no placeholder. */
  predicate FixedPlain(xs: seq<Piece>) {
    forall x <- xs :: x.Fixed? ==> Plain(x.ts)
  }

  lemma {:induction false} LayoutConcat(d: Dialect, a: seq<Piece>, b: seq<Piece>, base: nat)
    ensures LayoutArgs(a + b) == LayoutArgs(a) + LayoutArgs(b)
    ensures LayoutText(d, a + b, base) == LayoutText(d, a, base) + LayoutText(d, b, base + |LayoutArgs(a)|)
    ensures LayoutInline(a + b) == LayoutInline(a) + LayoutInline(b)
    ensures LayoutError(d, a + b) == if LayoutError(d, a).Some? then LayoutError(d, a) else LayoutError(d, b)
  {
    hide PieceText, PieceArgs, PieceInline, PieceError, LayoutText, LayoutArgs, LayoutError, LayoutInline;
    if a == [] {
      assert a + b == b;
      EmptyLayout(d, base);
    } else {
      var x, after := a[0], base + |PieceArgs(a[0])|;
      LayoutConcat(d, a[1..], b, after);
      LayoutStep(d, x, a[1..], base);
      LayoutStep(d, x, a[1..] + b, base);
      assert a == [x] + a[1..] && a + b == [x] + (a[1..] + b);
      SeqAssociates(PieceArgs(x), LayoutArgs(a[1..]), LayoutArgs(b));
      SeqAssociates(PieceInline(x), LayoutInline(a[1..]), LayoutInline(b));
      SeqAssociates(PieceText(d, x, base), LayoutText(d, a[1..], after), LayoutText(d, b, after + |LayoutArgs(a[1..])|));
    }
  }

  lemma EmptyLayout(d: Dialect, base: nat)
    ensures LayoutText(d, [], base) == [] && LayoutArgs([]) == [] && LayoutInline([]) == [] && LayoutError(d, []).None?
  {
  }

  lemma LayoutStep(d: Dialect, x: Piece, xs: seq<Piece>, base: nat)
    ensures LayoutArgs([x] + xs) == PieceArgs(x) + LayoutArgs(xs)
    ensures LayoutText(d, [x] + xs, base) == PieceText(d, x, base) + LayoutText(d, xs, base + |PieceArgs(x)|)
    ensures LayoutInline([x] + xs) == PieceInline(x) + LayoutInline(xs)
    ensures LayoutError(d, [x] + xs) == if PieceError(d, x).Some? then PieceError(d, x) else LayoutError(d, xs)
  {
    assert ([x] + xs)[1..] == xs;
  }

  lemma LayoutSingle(d: Dialect, x: Piece, base: nat)
    ensures LayoutArgs([x]) == PieceArgs(x) && LayoutText(d, [x], base) == PieceText(d, x, base)
    ensures LayoutInline([x]) == PieceInline(x) && LayoutError(d, [x]) == PieceError(d, x)
  {
    assert [x][1..] == [];
  }

  // ----- Placeholders of whole statements -----

  lemma ResolvePiece(d: Dialect, x: Piece, base: nat, args: seq<Value>)
    requires d.numbered && PieceError(d, x).None? && FixedPlain([x]) && Holds(args, base, PieceArgs(x))
    ensures Resolve(PieceText(d, x, base), args) == PieceInline(x)
  {
    match x
    case Fixed(ts) =>
      assert x in [x];
      ResolvePlain(ts, args);
    case Condition(p) =>
      ResolveRendered(d, p, base, args);
    case ValueOf(a) =>
      if a.SetRaw? {
        ResolveRaw(d, a.fragment, base, a.rawArgs, args);
      } else {
        HoldsAt(args, base, [a.value], 0);
      }
  }

  /** Every numbered placeholder of a statement stands for the value attached at that spot. */
  lemma {:induction false} NumberedStatementBinds(d: Dialect, xs: seq<Piece>, base: nat, args: seq<Value>)
    requires d.numbered && LayoutError(d, xs).None? && FixedPlain(xs) && Holds(args, base, LayoutArgs(xs))
    ensures Resolve(LayoutText(d, xs, base), args) == LayoutInline(xs)
    decreases |xs|
  {
    hide PieceText, PieceArgs, PieceInline, PieceError, PieceCountsUp;
    if xs != [] {
      var m := |PieceArgs(xs[0])|;
      HoldsSplit(args, base, PieceArgs(xs[0]), LayoutArgs(xs[1..]));
      assert FixedPlain([xs[0]]) && FixedPlain(xs[1..]) by {
        assert xs[0] in xs && forall x <- xs[1..] :: x in xs;
      }
      hide FixedPlain, Holds;
      ResolvePiece(d, xs[0], base, args);
      NumberedStatementBinds(d, xs[1..], base + m, args);
      ResolveConcat(PieceText(d, xs[0], base), LayoutText(d, xs[1..], base + m), args);
    }
  }

  lemma PiecePositional(d: Dialect, x: Piece, base: nat)
    requires d.numbered && PieceError(d, x).None? && FixedPlain([x])
    ensures Within(Indices(PieceText(d, x, base)), base, |PieceArgs(x)|)
    ensures CountsUp(PieceText(d, x, base), base, |PieceArgs(x)|) <==> PieceCountsUp(x)
  {
    match x
    case Fixed(ts) =>
      assert x in [x];
      IndicesPlain(ts);
    case Condition(p) =>
      PositionalIff(d, p, base);
    case ValueOf(a) =>
      if a.SetRaw? {
        IndicesRaw(d, a.fragment, base, |a.rawArgs|);
        RawPositional(d, a.fragment, base, |a.rawArgs|);
      } else {
        IndicesLast([], base);
        assert [] + [Ph(base + 1)] == PieceText(d, x, base);
      }
  }

  lemma {:induction false} LayoutPositional(d: Dialect, xs: seq<Piece>, base: nat)
    requires d.numbered && LayoutError(d, xs).None? && FixedPlain(xs)
    ensures Within(Indices(LayoutText(d, xs, base)), base, |LayoutArgs(xs)|)
    ensures CountsUp(LayoutText(d, xs, base), base, |LayoutArgs(xs)|) <==> LayoutCountsUp(xs)
    decreases |xs|
  {
    hide PieceText, PieceArgs, PieceInline, PieceError, PieceCountsUp;
    if xs != [] {
      assert FixedPlain([xs[0]]) && FixedPlain(xs[1..]) by {
        assert xs[0] in xs && forall x <- xs[1..] :: x in xs;
      }
      hide FixedPlain;
      var m := |PieceArgs(xs[0])|;
      PiecePositional(d, xs[0], base);
      LayoutPositional(d, xs[1..], base + m);
      CountsUpSplit(PieceText(d, xs[0], base), LayoutText(d, xs[1..], base + m), base, m, |LayoutArgs(xs[1..])|);
    }
  }

  lemma SameShapePiece(d: Dialect, x: Piece, base: nat)
    requires FixedPlain([x])
    ensures SameShape(PieceText(d.(numbered := false), x, base), PieceText(d.(numbered := true), x, base))
  {
    match x
    case Fixed(ts) =>
      assert x in [x];
      SameShapeAround(ts, [], [], []);
      assert ts + [] + [] == ts;
    case Condition(p) =>
      SameShapeRendered(d, p, base);
    case ValueOf(a) =>
  }

  lemma {:induction false} SameShapeLayout(d: Dialect, xs: seq<Piece>, base: nat)
    requires FixedPlain(xs)
    ensures SameShape(LayoutText(d.(numbered := false), xs, base), LayoutText(d.(numbered := true), xs, base))
    decreases |xs|
  {
    hide PieceText, PieceArgs, PieceInline, PieceError, PieceCountsUp;
    if xs != [] {
      var m, n := d.(numbered := false), d.(numbered := true);
      var x, after := xs[0], base + |PieceArgs(xs[0])|;
      assert x in xs && forall y <- xs[1..] :: y in xs;
      SameShapeLayout(d, xs[1..], after);
      SameShapePiece(d, x, base);
      SameShapeConcat(PieceText(m, x, base), PieceText(n, x, base), LayoutText(m, xs[1..], after), LayoutText(n, xs[1..], after));
    }
  }

  /**
   A dialect with positional markers. Counting its markers from one gives exactly the
   numbering of the values, with as many markers as values, if and only if every raw
   fragment of the statement uses $1 ... $n once each and in order.
   */
  lemma PositionalStatementIff(d: Dialect, xs: seq<Piece>)
    requires LayoutError(d, xs).None? && FixedPlain(xs)
    ensures var positional := LayoutText(d.(numbered := false), xs, 0);
            var numbered := LayoutText(d.(numbered := true), xs, 0);
            NumberMarks(positional, 0) == numbered && |Indices(numbered)| == |LayoutArgs(xs)|
            <==> LayoutCountsUp(xs)
  {
    var n := d.(numbered := true);
    SameErrors(d, n, xs);
    LayoutPositional(n, xs, 0);
    SameShapeLayout(d, xs, 0);
    MarksCountUp(LayoutText(d.(numbered := false), xs, 0), LayoutText(n, xs, 0), 0);
  }

  /** Under that condition the ith marker binds the ith argument at the right spot. */
  lemma PositionalStatementBinds(d: Dialect, xs: seq<Piece>)
    requires LayoutError(d, xs).None? && FixedPlain(xs) && LayoutCountsUp(xs)
    ensures ResolvePositional(LayoutText(d.(numbered := false), xs, 0), LayoutArgs(xs)) == LayoutInline(xs)
  {
    PositionalStatementIff(d, xs);
    SameErrors(d, d.(numbered := true), xs);
    NumberedStatementBinds(d.(numbered := true), xs, 0, LayoutArgs(xs));
  }

  /** Only the ILIKE capability of a dialect decides whether pieces render. */
  lemma {:induction false} SameErrors(d: Dialect, e: Dialect, xs: seq<Piece>)
    requires d.iLike == e.iLike
    ensures LayoutError(d, xs) == LayoutError(e, xs)
    decreases |xs|
  {
    if xs != [] {
      if xs[0].Condition? {
        SamePredicateError(d, e, xs[0].p);
      }
      SameErrors(d, e, xs[1..]);
    }
  }

  lemma {:induction false} SamePredicateError(d: Dialect, e: Dialect, p: Predicate)
    requires d.iLike == e.iLike
    ensures FirstError(d, p) == FirstError(e, p)
    decreases p
  {
    match p
    case And(children) => SamePredicateErrors(d, e, children);
    case Or(children) => SamePredicateErrors(d, e, children);
    case Not(child) => SamePredicateError(d, e, child);
    case _ =>
  }

  lemma {:induction false} SamePredicateErrors(d: Dialect, e: Dialect, ps: seq<Predicate>)
    requires d.iLike == e.iLike
    ensures FirstErrorAmong(d, ps) == FirstErrorAmong(e, ps)
    decreases ps
  {
    if ps != [] {
      SamePredicateError(d, e, ps[0]);
      SamePredicateErrors(d, e, ps[1..]);
    }
  }

  /** What a driver makes of a rendered statement, whichever placeholder style the dialect has. */
  function Executed(d: Dialect, text: seq<Token>, args: seq<Value>): seq<Token> {
    if d.numbered then Resolve(text, args) else ResolvePositional(text, args)
  }

  lemma StatementBinds(d: Dialect, xs: seq<Piece>)
    requires LayoutError(d, xs).None? && FixedPlain(xs)
    requires d.numbered || LayoutCountsUp(xs)
    ensures Executed(d, LayoutText(d, xs, 0), LayoutArgs(xs)) == LayoutInline(xs)
  {
    if d.numbered {
      NumberedStatementBinds(d, xs, 0, LayoutArgs(xs));
    } else {
      assert d == d.(numbered := false);
      PositionalStatementBinds(d, xs);
    }
  }

  // ----- Layouts -----

  datatype OrderTerm = Asc(col: Column) | Desc(col: Column) | OrderRaw(text: string)

  datatype SelectBuilder = SelectBuilder(
    table: Table,
    joins: seq<JoinClause>,
    distinct: bool,
    columns: seq<Column>,
    selectRaw: seq<string>,
    where: Predicate,
    groupBy: seq<Column>,
    having: Predicate,
    order: seq<OrderTerm>,
    limit: Option<int>,
    offset: Option<int>,
    forUpdate: bool,
    forShare: bool,
    skipLocked: bool
  )

  datatype InsertBuilder = InsertBuilder(
    table: string,
    rows: seq<seq<Assignment>>,
    returning: seq<Column>,
    conflictCols: seq<Column>,
    conflictDoNothing: bool,
    conflictUpdate: seq<Assignment>
  )

  datatype UpdateBuilder = UpdateBuilder(table: Table, assignments: seq<Assignment>, where: Predicate)

  datatype DeleteBuilder = DeleteBuilder(table: Table, where: Predicate)

  function ColumnTexts(cs: seq<Column>): (r: seq<seq<Token>>)
    ensures |r| == |cs|
  {
    seq(|cs|, i requires 0 <= i < |cs| => [Ident(cs[i])])
  }

  function OwnTexts(ws: seq<string>): (r: seq<seq<Token>>)
    ensures |r| == |ws|
  {
    seq(|ws|, i requires 0 <= i < |ws| => [Own(ws[i])])
  }

  function OrderText(o: OrderTerm): seq<Token> {
    match o
    case Asc(c) => [Ident(c), Word("ASC")]
    case Desc(c) => [Ident(c), Word("DESC")]
    case OrderRaw(s) => [Own(s)]
  }

  function OrderTexts(os: seq<OrderTerm>): (r: seq<seq<Token>>)
    ensures |r| == |os|
  {
    seq(|os|, i requires 0 <= i < |os| => OrderText(os[i]))
  }

  /** "KEYWORD a, b, c", or nothing for an empty list. */
  function ListClause(keyword: string, parts: seq<seq<Token>>): seq<Token> {
    if parts == [] then [] else [Word(keyword)] + Join(parts, Comma)
  }

  function ConditionClause(keyword: string, p: Predicate): seq<Piece> {
    if p.IsZero() then [] else [Fixed([Word(keyword)]), Condition(p)]
  }

  function SelectHead(b: SelectBuilder): seq<Token> {
    var list := ColumnTexts(b.columns) + OwnTexts(b.selectRaw);
    [Word("SELECT")]
    + (if b.distinct then [Word("DISTINCT")] else [])
    + (if list == [] then [Word("*")] else Join(list, Comma))
    + [Word("FROM")] + TableText(b.table)
  }

  function SelectTail(b: SelectBuilder): seq<Token> {
    ListClause("ORDER BY", OrderTexts(b.order))
    + (if b.limit.Some? then [Word("LIMIT"), Num(b.limit.value)] else [])
    + (if b.offset.Some? then [Word("OFFSET"), Num(b.offset.value)] else [])
    + (if b.forUpdate then [Word("FOR UPDATE")] else if b.forShare then [Word("FOR SHARE")] else [])
    + (if b.skipLocked then [Word("SKIP LOCKED")] else [])
  }

  function JoinLayout(js: seq<JoinClause>): seq<Piece> {
    if js == [] then [] else [Fixed(JoinHead(js[0])), Condition(js[0].on)] + JoinLayout(js[1..])
  }

  function SelectLayout(b: SelectBuilder): seq<Piece> {
    [Fixed(SelectHead(b))]
    + JoinLayout(b.joins)
    + ConditionClause("WHERE", b.where)
    + [Fixed(ListClause("GROUP BY", ColumnTexts(b.groupBy)))]
    + ConditionClause("HAVING", b.having)
    + [Fixed(SelectTail(b))]
  }

  /** Groups of pieces with a comma between neighbours. */
  function Separated(groups: seq<seq<Piece>>): seq<Piece> {
    if |groups| == 0 then []
    else if |groups| == 1 then groups[0]
    else groups[0] + [Fixed([Comma])] + Separated(groups[1..])
  }

  /** "a = x, b = y" */
  function SetGroups(assignments: seq<Assignment>): (r: seq<seq<Piece>>)
    ensures |r| == |assignments|
  {
    seq(|assignments|, i requires 0 <= i < |assignments| =>
      [Fixed([Name(assignments[i].col.name), Sym(Eq)]), ValueOf(assignments[i])])
  }

  function SetLayout(assignments: seq<Assignment>): seq<Piece> {
    Separated(SetGroups(assignments))
  }

  /** "(x, y, z)" */
  function ValueGroups(row: seq<Assignment>): (r: seq<seq<Piece>>)
    ensures |r| == |row|
  {
    seq(|row|, i requires 0 <= i < |row| => [ValueOf(row[i])])
  }

  function RowLayout(row: seq<Assignment>): seq<Piece> {
    [Fixed([LParen])] + Separated(ValueGroups(row)) + [Fixed([RParen])]
  }

  function RowGroups(rows: seq<seq<Assignment>>): (r: seq<seq<Piece>>)
    ensures |r| == |rows|
  {
    seq(|rows|, i requires 0 <= i < |rows| => RowLayout(rows[i]))
  }

  /** "(x, y), (z, w)" */
  function RowsLayout(rows: seq<seq<Assignment>>): seq<Piece> {
    Separated(RowGroups(rows))
  }

  function NameTexts(cs: seq<Column>): (r: seq<seq<Token>>)
    ensures |r| == |cs|
  {
    seq(|cs|, i requires 0 <= i < |cs| => [Name(cs[i].name)])
  }

  function TargetTexts(row: seq<Assignment>): (r: seq<seq<Token>>)
    ensures |r| == |row|
  {
    seq(|row|, i requires 0 <= i < |row| => [Name(row[i].col.name)])
  }

  predicate MySqlStyle(d: Dialect, b: InsertBuilder) {
    b.conflictCols != [] && !d.onConflict
  }

  function InsertHead(d: Dialect, b: InsertBuilder): seq<Token> {
    [Word(if MySqlStyle(d, b) && b.conflictDoNothing then "INSERT IGNORE INTO" else "INSERT INTO"), Name(b.table)]
    + (if b.rows == [] then []
       else [LParen] + Join(TargetTexts(b.rows[0]), Comma) + [RParen, Word("VALUES")])
  }

  function ConflictLayout(d: Dialect, b: InsertBuilder): seq<Piece> {
    if b.conflictCols == [] then []
    else if d.onConflict then
      [Fixed([Word("ON CONFLICT"), LParen] + Join(NameTexts(b.conflictCols), Comma) + [RParen])]
      + (if b.conflictDoNothing then [Fixed([Word("DO NOTHING")])]
         else [Fixed([Word("DO UPDATE SET")])] + SetLayout(b.conflictUpdate))
    else if b.conflictDoNothing then []
    else [Fixed([Word("ON DUPLICATE KEY UPDATE")])] + SetLayout(b.conflictUpdate)
  }

  function InsertLayout(d: Dialect, b: InsertBuilder): seq<Piece> {
    [Fixed(InsertHead(d, b))] + RowsLayout(b.rows) + ConflictLayout(d, b)
    + [Fixed(ListClause("RETURNING", ColumnTexts(b.returning)))]
  }

  function UpdateLayout(b: UpdateBuilder): seq<Piece> {
    [Fixed([Word("UPDATE")] + TableText(b.table) + [Word("SET")])]
    + SetLayout(b.assignments)
    + ConditionClause("WHERE", b.where)
  }

  function DeleteLayout(b: DeleteBuilder): seq<Piece> {
    [Fixed([Word("DELETE FROM")] + TableText(b.table))] + ConditionClause("WHERE", b.where)
  }

  // ----- The fixed text of every layout is free of placeholders -----

  lemma {:induction false} PlainJoin(parts: seq<seq<Token>>, separator: Token)
    requires !IsBinder(separator) && forall part <- parts :: Plain(part)
    ensures Plain(Join(parts, separator))
    decreases |parts|
  {
    if |parts| > 1 {
      assert parts[0] in parts && forall part <- parts[1..] :: part in parts;
      PlainJoin(parts[1..], separator);
    } else if |parts| == 1 {
      assert parts[0] in parts;
    }
  }

  lemma {:induction false} JoinLayoutPlain(js: seq<JoinClause>)
    ensures FixedPlain(JoinLayout(js))
  {
    if js != [] {
      JoinLayoutPlain(js[1..]);
    }
  }

  lemma {:induction false} SeparatedPlain(groups: seq<seq<Piece>>)
    requires forall g <- groups :: FixedPlain(g)
    ensures FixedPlain(Separated(groups))
    decreases |groups|
  {
    if |groups| > 1 {
      assert groups[0] in groups && forall g <- groups[1..] :: g in groups;
      SeparatedPlain(groups[1..]);
    } else if |groups| == 1 {
      assert groups[0] in groups;
    }
  }

  lemma SetLayoutPlain(assignments: seq<Assignment>)
    ensures FixedPlain(SetLayout(assignments))
  {
    SeparatedPlain(SetGroups(assignments));
  }

  lemma RowsLayoutPlain(rows: seq<seq<Assignment>>)
    ensures FixedPlain(RowsLayout(rows))
  {
    forall g <- RowGroups(rows)
      ensures FixedPlain(g)
    {
      var i :| 0 <= i < |rows| && g == RowLayout(rows[i]);
      SeparatedPlain(ValueGroups(rows[i]));
    }
    SeparatedPlain(RowGroups(rows));
  }

  lemma SelectHeadPlain(b: SelectBuilder)
    ensures Plain(SelectHead(b))
  {
    PlainJoin(ColumnTexts(b.columns) + OwnTexts(b.selectRaw), Comma);
  }

  lemma SelectTailPlain(b: SelectBuilder)
    ensures Plain(SelectTail(b))
  {
    PlainJoin(OrderTexts(b.order), Comma);
  }

  lemma SelectLayoutPlain(b: SelectBuilder)
    ensures FixedPlain(SelectLayout(b))
  {
    JoinLayoutPlain(b.joins);
    PlainJoin(ColumnTexts(b.groupBy), Comma);
    SelectHeadPlain(b);
    SelectTailPlain(b);
    var group := ListClause("GROUP BY", ColumnTexts(b.groupBy));
    var where, having := ConditionClause("WHERE", b.where), ConditionClause("HAVING", b.having);
    assert Plain(group) && FixedPlain(where) && FixedPlain(having);
    hide SelectHead, SelectTail, JoinLayout, ListClause, Plain, ConditionClause;
    var start, end := [Fixed(SelectHead(b))] + JoinLayout(b.joins) + where, [Fixed(group)] + having + [Fixed(SelectTail(b))];
    assert FixedPlain(start) && FixedPlain(end);
    hide FixedPlain;
    PlainConcat(start, end);
    assert SelectLayout(b) == start + end;
  }

  lemma PlainConcat(a: seq<Piece>, b: seq<Piece>)
    requires FixedPlain(a) && FixedPlain(b)
    ensures FixedPlain(a + b)
  {
  }

  lemma InsertLayoutPlain(d: Dialect, b: InsertBuilder)
    ensures FixedPlain(InsertLayout(d, b))
  {
    RowsLayoutPlain(b.rows);
    SetLayoutPlain(b.conflictUpdate);
    if b.rows != [] {
      PlainJoin(TargetTexts(b.rows[0]), Comma);
    }
    PlainJoin(NameTexts(b.conflictCols), Comma);
    PlainJoin(ColumnTexts(b.returning), Comma);
    assert Plain(InsertHead(d, b));
    hide InsertHead, RowsLayout, SetLayout;
    assert FixedPlain(ConflictLayout(d, b));
  }

  lemma UpdateLayoutPlain(b: UpdateBuilder)
    ensures FixedPlain(UpdateLayout(b))
  {
    SetLayoutPlain(b.assignments);
  }

  lemma DeleteLayoutPlain(b: DeleteBuilder)
    ensures FixedPlain(DeleteLayout(b))
  {
  }
}
