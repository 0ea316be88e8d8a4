/** The query chain of pack/query.go: what its statement filters by is the left fold of its steps. */
module Queries {
  import opened Results
  import opened SqlText
  import opened Predicates
  import opened SqlMeaning
  import opened Rendering
  import opened Statements
  import opened ReadBack
  import opened Builders

  datatype Step = Where(p: Predicate) | OrWhere(p: Predicate)

  function AndJoin(a: Predicate, b: Predicate): Predicate {
    if a.IsZero() then b else And([a, b])
  }

  function OrJoin(a: Predicate, b: Predicate): Predicate {
    if a.IsZero() then b else Or([a, b])
  }

  /** The condition a query holds after a chain of calls. */
  function Accumulate(where: Predicate, steps: seq<Step>): Predicate
    decreases |steps|
  {
    if steps == [] then where
    else
      match steps[0]
      case Where(p) => Accumulate(AndJoin(where, p), steps[1..])
      case OrWhere(p) => Accumulate(OrJoin(where, p), steps[1..])
  }

  /** The meaning of the calls, one at a time from the left; None while nothing has been asked. */
  function FoldSteps(acc: Option<Tri>, steps: seq<Step>, w: World): Option<Tri>
    requires forall s <- steps :: RawFree(s.p)
    decreases |steps|
  {
    if steps == [] then acc
    else
      assert steps[0] in steps && forall s <- steps[1..] :: s in steps;
      var here := Meaning(steps[0].p, w);
      var next :=
        if acc.None? then (if steps[0].p.IsZero() then None else Some(here))
        else if steps[0].Where? then Some(And3(acc.value, here))
        else Some(Or3(acc.value, here));
      FoldSteps(next, steps[1..], w)
  }

  function Asked(p: Predicate, w: World): Option<Tri>
    requires RawFree(p)
  {
    if p.IsZero() then None else Some(Meaning(p, w))
  }

  lemma PairMeaning(a: Predicate, b: Predicate, w: World)
    requires RawFree(a) && RawFree(b)
    ensures RawFree(And([a, b])) && Meaning(And([a, b]), w) == And3(Meaning(a, w), Meaning(b, w))
    ensures RawFree(Or([a, b])) && Meaning(Or([a, b]), w) == Or3(Meaning(a, w), Meaning(b, w))
  {
    assert [a, b][1..] == [b] && [b][1..] == [];
    assert MeaningOfAll([b], w) == And3(Meaning(b, w), MeaningOfAll([], w));
    assert MeaningOfAny([b], w) == Or3(Meaning(b, w), MeaningOfAny([], w));
  }

  /** Whatever the chain, the accumulated predicate means the left fold of its steps. */
  lemma {:induction false} ChainMeaning(where: Predicate, steps: seq<Step>, w: World)
    requires RawFree(where) && forall s <- steps :: RawFree(s.p)
    ensures RawFree(Accumulate(where, steps))
    ensures Asked(Accumulate(where, steps), w) == FoldSteps(Asked(where, w), steps, w)
    decreases |steps|
  {
    if steps != [] {
      var p := steps[0].p;
      assert steps[0] in steps && forall s <- steps[1..] :: s in steps;
      PairMeaning(where, p, w);
      ChainMeaning(if steps[0].Where? then AndJoin(where, p) else OrJoin(where, p), steps[1..], w);
    }
  }

  lemma PairRenders(d: Dialect, a: Predicate, b: Predicate)
    ensures Renderable(d, And([a, b])) <==> Renderable(d, a) && Renderable(d, b)
    ensures Renderable(d, Or([a, b])) <==> Renderable(d, a) && Renderable(d, b)
  {
    RendersIff(d, a);
    RendersIff(d, b);
    RendersIff(d, And([a, b]));
    RendersIff(d, Or([a, b]));
    hide Renderable;
    assert [a, b][1..] == [b] && [b][1..] == [];
    assert FirstErrorAmong(d, [b]) == FirstError(d, b);
  }

  /** A chain renders if and only if each of its conditions does. */
  lemma {:induction false} ChainRenders(d: Dialect, where: Predicate, steps: seq<Step>)
    ensures Renderable(d, Accumulate(where, steps)) <==> Renderable(d, where) && forall s <- steps :: Renderable(d, s.p)
    decreases |steps|
  {
    if steps != [] {
      var p := steps[0].p;
      PairRenders(d, where, p);
      RendersIff(d, NoCondition);
      ChainRenders(d, if steps[0].Where? then AndJoin(where, p) else OrJoin(where, p), steps[1..]);
      hide Renderable;
      assert forall s :: s in steps <==> s == steps[0] || s in steps[1..];
    }
  }

  /** .Where(a).Where(b).Or(c) asks for (a AND b) OR c. */
  lemma OrTakesEverythingBefore(a: Predicate, b: Predicate, c: Predicate, w: World)
    requires RawFree(a) && RawFree(b) && RawFree(c) && !a.IsZero()
    ensures var q := Accumulate(NoCondition, [Where(a), Where(b), OrWhere(c)]);
            RawFree(q) && Meaning(q, w) == Or3(And3(Meaning(a, w), Meaning(b, w)), Meaning(c, w))
  {
    var steps := [Where(a), Where(b), OrWhere(c)];
    ChainMeaning(NoCondition, steps, w);
    var last := [OrWhere(c)];
    assert steps[1..] == [Where(b), OrWhere(c)] && steps[1..][1..] == last && last[1..] == [];
    var two := Some(And3(Meaning(a, w), Meaning(b, w)));
    assert FoldSteps(two, last, w) == FoldSteps(Some(Or3(two.value, Meaning(c, w))), [], w);
    assert FoldSteps(Some(Meaning(a, w)), steps[1..], w) == FoldSteps(two, last, w);
  }

  // ----- Reading the condition back out of a whole statement -----

  /** The tokens after the first occurrence of a keyword. */
  function After(keyword: string, ts: seq<Token>): Option<seq<Token>> {
    if ts == [] then None
    else if ts[0] == Word(keyword) then Some(ts[1..])
    else After(keyword, ts[1..])
  }

  /** The expression a text starts with, up to a token no condition goes on with. */
  function Expression(ts: seq<Token>, w: World): Option<Tri> {
    match ParseOr(ts)
    case NoParse => None
    case Parsed(e, after) => if Closed(after) then Some(Eval(e, w)) else None
  }

  /** What an engine makes of a statement's only clause of that name: its expression, or true when there is none. */
  function Clause(keyword: string, ts: seq<Token>, w: World): Option<Tri> {
    match After(keyword, ts)
    case None => Some(True)
    case Some(rest) => Expression(rest, w)
  }

  /** What an engine filters rows by. */
  function Filter(ts: seq<Token>, w: World): Option<Tri> {
    Clause("WHERE", ts, w)
  }

  /** The tokens after the nth occurrence of a keyword, counting from zero. */
  function AfterNth(keyword: string, ts: seq<Token>, n: nat): Option<seq<Token>>
    decreases n
  {
    match After(keyword, ts)
    case None => None
    case Some(rest) => if n == 0 then Some(rest) else AfterNth(keyword, rest, n - 1)
  }

  /** What an engine joins the nth joined table by. */
  function JoinsBy(ts: seq<Token>, n: nat, w: World): Option<Tri> {
    match AfterNth("ON", ts, n)
    case None => None
    case Some(rest) => Expression(rest, w)
  }

  predicate Mentions(keyword: string, ts: seq<Token>) {
    Word(keyword) in ts
  }

  lemma {:induction false} AfterFirst(keyword: string, before: seq<Token>, rest: seq<Token>)
    requires !Mentions(keyword, before)
    ensures After(keyword, before + rest) == After(keyword, rest)
  {
    if before == [] {
      assert before + rest == rest;
    } else {
      assert before[0] in before && forall t <- before[1..] :: t in before;
      assert (before + rest)[1..] == before[1..] + rest;
      AfterFirst(keyword, before[1..], rest);
    }
  }

  lemma {:induction false} AfterNone(keyword: string, ts: seq<Token>)
    requires !Mentions(keyword, ts)
    ensures After(keyword, ts).None?
  {
    if ts != [] {
      assert ts[0] in ts && forall t <- ts[1..] :: t in ts;
      AfterNone(keyword, ts[1..]);
    }
  }

  lemma ExpressionReads(p: Predicate, rest: seq<Token>, w: World)
    requires RawFree(p) && Closed(rest)
    ensures Expression(Inline(p) + rest, w) == Some(Meaning(p, w))
  {
    TextParses(p, rest);
    EvalExprOf(p, w);
  }

  /** head, then the optional condition, then tail. */
  lemma ClauseReads(keyword: string, head: seq<Token>, p: Predicate, tail: seq<Token>, w: World)
    requires RawFree(p) && !Mentions(keyword, head) && !Mentions(keyword, tail) && Closed(tail)
    ensures Clause(keyword, head + LayoutInline(ConditionClause(keyword, p)) + tail, w) == Some(Meaning(p, w))
  {
    var clause := LayoutInline(ConditionClause(keyword, p));
    if p.IsZero() {
      assert head + clause + tail == head + tail;
      AfterFirst(keyword, head, tail);
      AfterNone(keyword, tail);
    } else {
      ConditionInline(keyword, p);
      assert head + clause + tail == head + ([Word(keyword)] + (Inline(p) + tail));
      AfterFirst(keyword, head, [Word(keyword)] + (Inline(p) + tail));
      assert ([Word(keyword)] + (Inline(p) + tail))[1..] == Inline(p) + tail;
      ExpressionReads(p, tail, w);
    }
  }

  // ----- Conditions, names and values contain no keyword of a clause -----

  /** A layout mentions a keyword only where its fixed text does. */
  predicate Silent(keyword: string, xs: seq<Piece>) {
    forall x <- xs :: x.Fixed? ==> !Mentions(keyword, x.ts)
  }

  lemma {:induction false} SilentInline(keyword: string, xs: seq<Piece>)
    requires Silent(keyword, xs)
    ensures !Mentions(keyword, LayoutInline(xs))
    decreases |xs|
  {
    if xs != [] {
      var x := xs[0];
      assert x in xs && forall y <- xs[1..] :: y in xs;
      SilentInline(keyword, xs[1..]);
      if x.Condition? { InlineWordless(x.p); }
      assert !Mentions(keyword, PieceInline(x));
    }
  }

  lemma {:induction false} JoinsSilent(keyword: string, joins: seq<JoinClause>)
    requires keyword == "WHERE" || keyword == "HAVING"
    ensures Silent(keyword, JoinLayout(joins))
    decreases |joins|
  {
    if joins != [] {
      JoinsSilent(keyword, joins[1..]);
    }
  }

  lemma HeadSilent(keyword: string, b: SelectBuilder)
    requires keyword == "WHERE" || keyword == "HAVING" || keyword == "ON"
    ensures !Mentions(keyword, SelectHead(b))
  {
    JoinWordless(ColumnTexts(b.columns) + OwnTexts(b.selectRaw), Comma);
  }

  lemma GroupSilent(keyword: string, b: SelectBuilder)
    requires keyword == "WHERE" || keyword == "HAVING"
    ensures !Mentions(keyword, ListClause("GROUP BY", ColumnTexts(b.groupBy)))
  {
    JoinWordless(ColumnTexts(b.groupBy), Comma);
  }

  lemma {:induction false} OrderSilent(keyword: string, os: seq<OrderTerm>)
    requires keyword == "WHERE" || keyword == "HAVING"
    ensures !Mentions(keyword, Join(OrderTexts(os), Comma))
    decreases |os|
  {
    if |os| > 1 {
      assert OrderTexts(os)[1..] == OrderTexts(os[1..]);
      OrderSilent(keyword, os[1..]);
    }
  }

  lemma TailSilent(keyword: string, b: SelectBuilder)
    requires keyword == "WHERE" || keyword == "HAVING"
    ensures !Mentions(keyword, SelectTail(b))
  {
    OrderSilent(keyword, b.order);
    hide Join, OrderTexts;
  }

  lemma {:induction false} SeparatedSilent(keyword: string, groups: seq<seq<Piece>>)
    requires forall g <- groups :: Silent(keyword, g)
    ensures Silent(keyword, Separated(groups))
    decreases |groups|
  {
    if |groups| > 1 {
      assert groups[0] in groups && forall g <- groups[1..] :: g in groups;
      SeparatedSilent(keyword, groups[1..]);
    }
  }

  // ----- The statements -----

  /** A predicate rendered for any dialect, placeholders numbered or not, and executed with its arguments, is read as what it means. */
  lemma PredicateReads(d: Dialect, p: Predicate, w: World)
    requires RawFree(p) && Renderable(d, p)
    ensures Expression(Executed(d, Rendered(d, p, 0), Args(p)), w) == Some(Meaning(p, w))
  {
    RendersIff(d, p);
    hide Inline, Meaning, Rendered, Args, RawsCountUp, Expression, Renderable;
    var layout := [Condition(p)];
    LayoutSingle(d, Condition(p), 0);
    RawFreeCountsUp(p);
    assert LayoutCountsUp(layout) by { assert layout[1..] == []; }
    StatementBinds(d, layout);
    ExpressionReads(p, [], w);
    assert Inline(p) + [] == Inline(p);
  }

  /**
   A DELETE built from any chain of raw-free Where and Or calls, rendered for any
   dialect and executed with the arguments it returned, filters each row by the left
   fold of the calls; with no condition asked it takes every row.
   */
  method DeleteWhere(d: Dialect, t: Table, steps: seq<Step>, ghost w: World) returns (res: Result<Statement, RenderError>)
    requires forall s <- steps :: RawFree(s.p)
    ensures res.Success? ==>
      Filter(Executed(d, res.value.0, res.value.1), w)
      == Some(if FoldSteps(None, steps, w).None? then True else FoldSteps(None, steps, w).value)
    ensures res.Success? <==> forall s <- steps :: Renderable(d, s.p)
  {
    var where := Accumulate(NoCondition, steps);
    ChainMeaning(NoCondition, steps, w);
    ChainRenders(d, NoCondition, steps);
    RendersIff(d, NoCondition);
    hide Renderable;
    var b := DeleteBuilder(t, where);
    res := RenderDelete(d, b);
    DeleteReads(d, b, w);
  }

  lemma DeleteReads(d: Dialect, b: DeleteBuilder, w: World)
    requires RawFree(b.where)
    ensures Filter(LayoutInline(DeleteLayout(b)), w) == Some(Meaning(b.where, w))
    ensures LayoutCountsUp(DeleteLayout(b))
    ensures LayoutError(d, DeleteLayout(b)) == FirstError(d, b.where)
  {
    hide Inline, Meaning, Rendered, Args, RawsCountUp;
    var head := [Word("DELETE FROM")] + TableText(b.table);
    LayoutConcat(d, [Fixed(head)], ConditionClause("WHERE", b.where), 0);
    LayoutSingle(d, Fixed(head), 0);
    ClauseReads("WHERE", head, b.where, [], w);
    assert head + LayoutInline(ConditionClause("WHERE", b.where)) + [] == LayoutInline(DeleteLayout(b));
    RawFreeCountsUp(b.where);
    OneCondition(d, head, b.where);
  }

  lemma OneCondition(d: Dialect, head: seq<Token>, p: Predicate)
    requires RawsCountUp(p)
    ensures LayoutCountsUp([Fixed(head)] + ConditionClause("WHERE", p))
    ensures LayoutError(d, [Fixed(head)] + ConditionClause("WHERE", p)) == FirstError(d, p)
  {
    var layout := [Fixed(head)] + ConditionClause("WHERE", p);
    if p.IsZero() {
      assert layout[1..] == [];
    } else {
      var rest := [Fixed([Word("WHERE")]), Condition(p)];
      assert layout[1..] == rest && rest[1..] == [Condition(p)] && [Condition(p)][1..] == [];
      assert LayoutError(d, [Condition(p)]) == FirstError(d, p);
      assert LayoutError(d, rest) == FirstError(d, p);
      assert LayoutCountsUp([Condition(p)]);
      assert LayoutCountsUp(rest);
    }
  }

  /** The WHERE of a rendered UPDATE, after its assignments, is read as exactly the builder's predicate. */
  lemma UpdateReads(b: UpdateBuilder, w: World)
    requires RawFree(b.where)
    ensures Filter(LayoutInline(UpdateLayout(b)), w) == Some(Meaning(b.where, w))
  {
    hide Inline, Meaning, ConditionClause;
    var dialect := Dialect(true, true, true, true, true);
    var head := [Fixed([Word("UPDATE")] + TableText(b.table) + [Word("SET")])];
    SeparatedSilent("WHERE", SetGroups(b.assignments));
    SilentInline("WHERE", head + SetLayout(b.assignments));
    LayoutConcat(dialect, head + SetLayout(b.assignments), ConditionClause("WHERE", b.where), 0);
    hide SetLayout, LayoutInline;
    var before, clause := LayoutInline(head + SetLayout(b.assignments)), LayoutInline(ConditionClause("WHERE", b.where));
    ClauseReads("WHERE", before, b.where, [], w);
    assert before + clause + [] == before + clause;
  }

  /**
   The WHERE of a rendered SELECT, with its joins before and its grouping, ordering,
   paging and locking clauses after, is read as exactly the builder's predicate.
   */
  lemma SelectReads(b: SelectBuilder, w: World)
    requires RawFree(b.where)
    ensures Filter(LayoutInline(SelectLayout(b)), w) == Some(Meaning(b.where, w))
  {
    SelectInline(b);
    RestInline(b);
    HeadSilent("WHERE", b);
    JoinsSilent("WHERE", b.joins);
    SilentInline("WHERE", JoinLayout(b.joins));
    RestSilent(b);
    hide Inline, Meaning, SelectHead, SelectTail, ListClause, JoinLayout, ConditionClause, LayoutInline, SelectRest;
    ClauseReads("WHERE", SelectHead(b) + LayoutInline(JoinLayout(b.joins)), b.where, LayoutInline(SelectRest(b)), w);
  }

  lemma RestSilent(b: SelectBuilder)
    ensures !Mentions("WHERE", LayoutInline(SelectRest(b)))
  {
    GroupSilent("WHERE", b);
    TailSilent("WHERE", b);
    hide SelectTail, ListClause;
    SilentInline("WHERE", SelectRest(b));
  }

  lemma HavingAlone(b: SelectBuilder)
    ensures !Mentions("HAVING", SelectHead(b) + LayoutInline(JoinLayout(b.joins)) + LayoutInline(ConditionClause("WHERE", b.where))
                               + ListClause("GROUP BY", ColumnTexts(b.groupBy)))
    ensures !Mentions("HAVING", SelectTail(b))
  {
    HeadSilent("HAVING", b);
    JoinsSilent("HAVING", b.joins);
    SilentInline("HAVING", JoinLayout(b.joins));
    SilentInline("HAVING", ConditionClause("WHERE", b.where));
    GroupSilent("HAVING", b);
    TailSilent("HAVING", b);
    hide SelectHead, SelectTail, ListClause, JoinLayout, ConditionClause, LayoutInline;
  }

  /** And so is its HAVING. */
  lemma HavingReads(b: SelectBuilder, w: World)
    requires RawFree(b.having)
    ensures Clause("HAVING", LayoutInline(SelectLayout(b)), w) == Some(Meaning(b.having, w))
  {
    SelectInline(b);
    RestInline(b);
    HavingAlone(b);
    TailStartsWithWord(b);
    var tail := SelectTail(b);
    assert Closed(tail);
    hide Inline, Meaning, SelectHead, SelectTail, ListClause, JoinLayout, ConditionClause, LayoutInline, SelectRest, SelectLayout;
    hide Clause, Mentions, Closed, StartsWithWord;
    var before := SelectHead(b) + LayoutInline(JoinLayout(b.joins)) + LayoutInline(ConditionClause("WHERE", b.where));
    var group, having := ListClause("GROUP BY", ColumnTexts(b.groupBy)), LayoutInline(ConditionClause("HAVING", b.having));
    ClauseReads("HAVING", before + group, b.having, tail, w);
    Regroup(before, group, having, tail);
  }

  lemma Regroup(a: seq<Token>, b: seq<Token>, c: seq<Token>, d: seq<Token>)
    ensures a + b + c + d == a + (b + c + d)
  {
  }

  lemma RestStarts(b: SelectBuilder)
    ensures StartsWithWord(LayoutInline(SelectRest(b)))
  {
    RestInline(b);
    hide LayoutInline, SelectRest;
  }

  lemma OnBetween(head: seq<Token>, joins: seq<JoinClause>, i: nat, where: seq<Token>, after: seq<Token>) returns (rest: seq<Token>)
    requires i < |joins| && !Mentions("ON", head) && StartsWithWord(where) && StartsWithWord(after)
    ensures AfterNth("ON", head + LayoutInline(JoinLayout(joins)) + where + after, i) == Some(Inline(joins[i].on) + rest) && Closed(rest)
  {
    JoinsStart(joins[i + 1..]);
    hide Inline, JoinLayout, LayoutInline, AfterNth, Mentions;
    var text, more := LayoutInline(JoinLayout(joins)), LayoutInline(JoinLayout(joins[i + 1..]));
    StartsThen(where, after);
    StartsThen(more, where + after);
    NthOn(head, joins, i, where + after);
    SeqAssociates(head + text, where, after);
    rest := more + (where + after);
  }

  lemma OnFound(b: SelectBuilder, i: nat) returns (rest: seq<Token>)
    requires i < |b.joins|
    ensures AfterNth("ON", LayoutInline(SelectLayout(b)), i) == Some(Inline(b.joins[i].on) + rest) && Closed(rest)
  {
    SelectInline(b);
    RestStarts(b);
    HeadSilent("ON", b);
    ConditionStarts("WHERE", b.where);
    hide Inline, SelectHead, JoinLayout, ConditionClause, LayoutInline, SelectRest, SelectLayout, AfterNth, Mentions;
    rest := OnBetween(SelectHead(b), b.joins, i, LayoutInline(ConditionClause("WHERE", b.where)), LayoutInline(SelectRest(b)));
  }

  /** The ON of each join is read as that join's predicate. */
  lemma JoinReads(b: SelectBuilder, i: nat, w: World)
    requires i < |b.joins| && RawFree(b.joins[i].on)
    ensures JoinsBy(LayoutInline(SelectLayout(b)), i, w) == Some(Meaning(b.joins[i].on, w))
  {
    hide Inline, Meaning, LayoutInline, SelectLayout, AfterNth, Expression;
    var rest := OnFound(b, i);
    ExpressionReads(b.joins[i].on, rest, w);
  }

  lemma {:induction false} NthOn(before: seq<Token>, joins: seq<JoinClause>, i: nat, after: seq<Token>)
    requires i < |joins| && !Mentions("ON", before)
    ensures AfterNth("ON", before + LayoutInline(JoinLayout(joins)) + after, i)
            == Some(Inline(joins[i].on) + (LayoutInline(JoinLayout(joins[i + 1..])) + after))
    decreases i
  {
    hide Inline, JoinLayout, LayoutInline;
    JoinInline(joins);
    var on, more := Inline(joins[0].on), LayoutInline(JoinLayout(joins[1..]));
    var j := joins[0];
    var lead := before + ([Word(if j.left then "LEFT JOIN" else "JOIN")] + TableText(j.table));
    var text := before + LayoutInline(JoinLayout(joins)) + after;
    assert text == lead + ([Word("ON")] + (on + (more + after)));
    AfterFirst("ON", lead, [Word("ON")] + (on + (more + after)));
    assert ([Word("ON")] + (on + (more + after)))[1..] == on + (more + after);
    assert After("ON", text) == Some(on + (more + after));
    if i > 0 {
      InlineWordless(j.on);
      NthOn(on, joins[1..], i - 1, after);
      assert on + (more + after) == on + more + after;
      assert joins[1..][i..] == joins[i + 1..];
    }
  }

  lemma {:induction false} RawFreeCountsUp(p: Predicate)
    requires RawFree(p)
    ensures RawsCountUp(p)
    decreases p
  {
    match p
    case And(children) => RawFreeCountsUpAll(children);
    case Or(children) => RawFreeCountsUpAll(children);
    case Not(child) => RawFreeCountsUp(child);
    case _ =>
  }

  lemma {:induction false} RawFreeCountsUpAll(ps: seq<Predicate>)
    requires forall p <- ps :: RawFree(p)
    ensures RawsCountUpAll(ps)
    decreases ps
  {
    if ps != [] {
      assert ps[0] in ps && forall p <- ps[1..] :: p in ps;
      RawFreeCountsUp(ps[0]);
      RawFreeCountsUpAll(ps[1..]);
    }
  }
}
