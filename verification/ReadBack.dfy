/**
 What an engine reads in the statements the builders lay out: for INSERT which value each
 column of each row is given and what happens on a conflict, for UPDATE which column each
 assignment sets, for SELECT the table, the joins, the ordering, the paging and the lock.
 */
module ReadBack {
  import opened Results
  import opened SqlText
  import opened SqlReader
  import opened Predicates
  import opened Rendering
  import opened Statements

  // ----- Lists are read item by item -----

  /** No token that ends an item. */
  predicate OneItem(ts: seq<Token>) {
    ts != [] && forall t <- ts :: !Stops(t)
  }

  /** A token that ends a list, or the end of the text. */
  predicate EndsList(rest: seq<Token>) {
    rest == [] || rest[0].RParen? || rest[0].Word?
  }

  lemma {:induction false} ItemEndsAt(item: seq<Token>, rest: seq<Token>)
    requires (forall t <- item :: !Stops(t)) && (rest == [] || Stops(rest[0]))
    ensures ItemEnd(item + rest) == |item|
    decreases |item|
  {
    if item == [] {
      assert item + rest == rest;
    } else {
      assert item[0] in item && forall t <- item[1..] :: t in item;
      assert (item + rest)[1..] == item[1..] + rest;
      ItemEndsAt(item[1..], rest);
    }
  }

  lemma ItemLast(item: seq<Token>, rest: seq<Token>)
    requires (forall t <- item :: !Stops(t)) && EndsList(rest)
    ensures Items(item + rest) == ([item], rest)
  {
    ItemEndsAt(item, rest);
    assert (item + rest)[..|item|] == item && (item + rest)[|item|..] == rest;
  }

  lemma ItemStep(item: seq<Token>, more: seq<Token>)
    requires forall t <- item :: !Stops(t)
    ensures Items(item + ([Comma] + more)) == ([item] + Items(more).0, Items(more).1)
  {
    var text, n := item + ([Comma] + more), |item|;
    ItemEndsAt(item, [Comma] + more);
    assert text[..n] == item && text[n] == Comma && text[n + 1..] == more;
  }

  lemma {:induction false} ItemsRead(parts: seq<seq<Token>>, rest: seq<Token>)
    requires parts != [] && (forall p <- parts :: OneItem(p)) && EndsList(rest)
    ensures Items(Join(parts, Comma) + rest) == (parts, rest)
    decreases |parts|
  {
    hide Items;
    assert parts[0] in parts && forall p <- parts[1..] :: p in parts;
    assert parts == [parts[0]] + parts[1..];
    if |parts| == 1 {
      ItemLast(parts[0], rest);
      assert parts == [parts[0]] && Join(parts, Comma) == parts[0];
    } else {
      var more := Join(parts[1..], Comma);
      ItemsRead(parts[1..], rest);
      ItemStep(parts[0], more + rest);
      assert Join(parts, Comma) == parts[0] + [Comma] + more;
      Listed(parts[0], more, rest);
    }
  }

  lemma ListRead(parts: seq<seq<Token>>, rest: seq<Token>)
    requires (forall p <- parts :: OneItem(p)) && EndsList(rest)
    ensures ListAt(Join(parts, Comma) + rest) == (parts, rest)
  {
    if parts == [] {
      assert Join(parts, Comma) + rest == rest;
    } else {
      ItemsRead(parts, rest);
      assert parts[0] in parts;
      JoinStarts(parts);
      assert (Join(parts, Comma) + rest)[0] == Join(parts, Comma)[0];
    }
  }

  lemma JoinStarts(parts: seq<seq<Token>>)
    requires parts != [] && parts[0] != []
    ensures Join(parts, Comma) != [] && Join(parts, Comma)[0] == parts[0][0]
  {
  }

  function Parens(items: seq<seq<Token>>): seq<Token> {
    [LParen] + Join(items, Comma) + [RParen]
  }

  lemma ParenthesisedRead(parts: seq<seq<Token>>, rest: seq<Token>)
    requires forall p <- parts :: OneItem(p)
    ensures Parenthesised(Parens(parts) + rest) == Some((parts, rest))
  {
    var text := Parens(parts) + rest;
    assert text[1..] == Join(parts, Comma) + ([RParen] + rest);
    ListRead(parts, [RParen] + rest);
    assert ([RParen] + rest)[1..] == rest;
  }

  function TupleTexts(tuples: seq<seq<seq<Token>>>): (r: seq<seq<Token>>)
    ensures |r| == |tuples|
  {
    seq(|tuples|, i requires 0 <= i < |tuples| => Parens(tuples[i]))
  }

  lemma TupleStep(first: seq<seq<Token>>, more: seq<Token>)
    requires (forall p <- first :: OneItem(p)) && Tuples(more).Some?
    ensures Tuples(Parens(first) + ([Comma] + more)) == Some(([first] + Tuples(more).value.0, Tuples(more).value.1))
  {
    ParenthesisedRead(first, [Comma] + more);
    assert ([Comma] + more)[1..] == more;
    hide Parenthesised;
  }

  lemma LastTuple(only: seq<seq<Token>>, rest: seq<Token>)
    requires (forall p <- only :: OneItem(p)) && (rest == [] || !rest[0].Comma?)
    ensures Tuples(Parens(only) + rest) == Some(([only], rest))
  {
    ParenthesisedRead(only, rest);
    hide Parenthesised, Parens;
  }

  lemma TuplesJoin(tuples: seq<seq<seq<Token>>>)
    requires tuples != []
    ensures Join(TupleTexts(tuples), Comma)
         == if |tuples| == 1 then Parens(tuples[0]) else Parens(tuples[0]) + [Comma] + Join(TupleTexts(tuples[1..]), Comma)
  {
    assert TupleTexts(tuples)[1..] == TupleTexts(tuples[1..]);
    hide Parens;
  }

  lemma {:induction false} TuplesRead(tuples: seq<seq<seq<Token>>>, rest: seq<Token>)
    requires tuples != [] && (forall t <- tuples, p <- t :: OneItem(p)) && (rest == [] || !rest[0].Comma?)
    ensures Tuples(Join(TupleTexts(tuples), Comma) + rest) == Some((tuples, rest))
    decreases |tuples|
  {
    hide Tuples, Parens, TupleTexts, Join, OneItem;
    var first := tuples[0];
    TuplesJoin(tuples);
    assert first in tuples;
    if |tuples| == 1 {
      LastTuple(first, rest);
      assert tuples == [first];
    } else {
      assert forall t <- tuples[1..] :: t in tuples;
      var more := Join(TupleTexts(tuples[1..]), Comma);
      TuplesRead(tuples[1..], rest);
      TupleStep(first, more + rest);
      Listed(Parens(first), more, rest);
      assert tuples == [first] + tuples[1..];
    }
  }

  lemma Listed(first: seq<Token>, more: seq<Token>, rest: seq<Token>)
    ensures first + [Comma] + more + rest == first + ([Comma] + (more + rest))
  {
  }

  // ----- Values and assignments -----

  /** The text of an assignment's value, which a raw value must have some of. */
  predicate HasText(a: Assignment) {
    a.SetRaw? ==> a.fragment != []
  }

  /** The value an assignment was built from, standing in place. */
  ghost predicate Gives(a: Assignment, text: seq<Token>) {
    match a
    case SetValue(_, value) => text == [Lit(value)]
    case SetRaw(_, fragment, rawArgs) => Filled(fragment, rawArgs, text)
  }

  lemma ValueGiven(a: Assignment)
    ensures Gives(a, ValueInline(a))
  {
  }

  predicate AllHaveText(assignments: seq<Assignment>) {
    forall a <- assignments :: HasText(a)
  }

  lemma ValueIsItem(a: Assignment)
    requires HasText(a)
    ensures OneItem(ValueInline(a))
  {
  }

  function Inlines(groups: seq<seq<Piece>>): (r: seq<seq<Token>>)
    ensures |r| == |groups|
  {
    seq(|groups|, i requires 0 <= i < |groups| => LayoutInline(groups[i]))
  }

  lemma {:induction false} SeparatedInline(groups: seq<seq<Piece>>)
    ensures LayoutInline(Separated(groups)) == Join(Inlines(groups), Comma)
    decreases |groups|
  {
    var d := Dialect(true, true, true, true, true);
    if |groups| > 1 {
      SeparatedInline(groups[1..]);
      assert Inlines(groups)[1..] == Inlines(groups[1..]);
      LayoutConcat(d, groups[0] + [Fixed([Comma])], Separated(groups[1..]), 0);
      LayoutConcat(d, groups[0], [Fixed([Comma])], 0);
      LayoutSingle(d, Fixed([Comma]), 0);
      hide LayoutInline;
    }
  }

  function SetTexts(assignments: seq<Assignment>): (r: seq<seq<Token>>)
    ensures |r| == |assignments|
  {
    seq(|assignments|, i requires 0 <= i < |assignments| => [Name(assignments[i].col.name), Sym(Eq)] + ValueInline(assignments[i]))
  }

  lemma SetInline(a: Assignment)
    ensures LayoutInline([Fixed([Name(a.col.name), Sym(Eq)]), ValueOf(a)]) == [Name(a.col.name), Sym(Eq)] + ValueInline(a)
  {
    var d := Dialect(true, true, true, true, true);
    var name: seq<Token> := [Name(a.col.name), Sym(Eq)];
    assert [Fixed(name), ValueOf(a)] == [Fixed(name)] + [ValueOf(a)];
    LayoutConcat(d, [Fixed(name)], [ValueOf(a)], 0);
    LayoutSingle(d, Fixed(name), 0);
    LayoutSingle(d, ValueOf(a), 0);
  }

  lemma SetsInline(assignments: seq<Assignment>)
    ensures LayoutInline(SetLayout(assignments)) == Join(SetTexts(assignments), Comma)
  {
    SeparatedInline(SetGroups(assignments));
    forall i | 0 <= i < |assignments|
      ensures Inlines(SetGroups(assignments))[i] == SetTexts(assignments)[i]
    {
      SetInline(assignments[i]);
    }
    assert Inlines(SetGroups(assignments)) == SetTexts(assignments);
  }

  /** Each assignment is read as its own column given its own value. */
  ghost predicate SetsAs(sets: seq<Given>, assignments: seq<Assignment>) {
    |sets| == |assignments|
    && forall i :: 0 <= i < |sets| ==> sets[i].column == assignments[i].col.name && Gives(assignments[i], sets[i].value)
  }

  lemma SetItem(a: Assignment)
    requires HasText(a)
    ensures var text := [Name(a.col.name), Sym(Eq)] + ValueInline(a);
            OneItem(text) && GivenIn(text).column == a.col.name && Gives(a, GivenIn(text).value)
  {
    ValueIsItem(a);
    ValueGiven(a);
    hide ValueInline, Gives;
    assert ([Name(a.col.name), Sym(Eq)] + ValueInline(a))[2..] == ValueInline(a);
  }

  lemma SetsRead(assignments: seq<Assignment>, rest: seq<Token>)
    requires AllHaveText(assignments) && EndsList(rest)
    ensures SetsAs(SetsAt(LayoutInline(SetLayout(assignments)) + rest).0, assignments)
    ensures SetsAt(LayoutInline(SetLayout(assignments)) + rest).1 == rest
  {
    SetsInline(assignments);
    var texts := SetTexts(assignments);
    forall i | 0 <= i < |texts|
      ensures OneItem(texts[i])
      ensures GivenIn(texts[i]).column == assignments[i].col.name && Gives(assignments[i], GivenIn(texts[i]).value)
    {
      assert assignments[i] in assignments;
      SetItem(assignments[i]);
    }
    hide OneItem, Gives, GivenIn, SetTexts, SetLayout, LayoutInline, ListAt, Join;
    assert forall p <- texts :: OneItem(p);
    ListRead(texts, rest);
  }

  // ----- INSERT -----

  function ValueTexts(row: seq<Assignment>): (r: seq<seq<Token>>)
    ensures |r| == |row|
  {
    seq(|row|, i requires 0 <= i < |row| => ValueInline(row[i]))
  }

  function RowTexts(rows: seq<seq<Assignment>>): (r: seq<seq<seq<Token>>>)
    ensures |r| == |rows|
  {
    seq(|rows|, i requires 0 <= i < |rows| => ValueTexts(rows[i]))
  }

  lemma RowInline(row: seq<Assignment>)
    ensures LayoutInline(RowLayout(row)) == [LParen] + Join(ValueTexts(row), Comma) + [RParen]
  {
    var d := Dialect(true, true, true, true, true);
    var values := Separated(ValueGroups(row));
    SeparatedInline(ValueGroups(row));
    forall i | 0 <= i < |row|
      ensures Inlines(ValueGroups(row))[i] == ValueTexts(row)[i]
    {
      LayoutSingle(d, ValueOf(row[i]), 0);
    }
    assert Inlines(ValueGroups(row)) == ValueTexts(row);
    LayoutConcat(d, [Fixed([LParen])] + values, [Fixed([RParen])], 0);
    LayoutConcat(d, [Fixed([LParen])], values, 0);
    LayoutSingle(d, Fixed([LParen]), 0);
    LayoutSingle(d, Fixed([RParen]), 0);
    hide LayoutInline;
  }

  lemma RowsInline(rows: seq<seq<Assignment>>)
    ensures LayoutInline(RowsLayout(rows)) == Join(TupleTexts(RowTexts(rows)), Comma)
  {
    SeparatedInline(RowGroups(rows));
    forall i | 0 <= i < |rows|
      ensures Inlines(RowGroups(rows))[i] == TupleTexts(RowTexts(rows))[i]
    {
      RowInline(rows[i]);
    }
    assert Inlines(RowGroups(rows)) == TupleTexts(RowTexts(rows));
  }

  /** What the conflict clause asks for, in either dialect's form. */
  ghost predicate ConflictAs(d: Dialect, b: InsertBuilder, c: OnConflict) {
    if b.conflictCols == [] then c.Fails?
    else
      && (if b.conflictDoNothing then c.Nothing? else c.Updates? && SetsAs(c.sets, b.conflictUpdate))
      && (if d.onConflict then
            && c.target.Some? && |c.target.value| == |b.conflictCols|
            && forall i :: 0 <= i < |b.conflictCols| ==> c.target.value[i] == b.conflictCols[i].name
          else c.target.None?)
  }

  lemma NamesRead(texts: seq<seq<Token>>, names: seq<string>)
    requires |texts| == |names| && forall i :: 0 <= i < |names| ==> texts[i] == [Name(names[i])]
    ensures NamesIn(texts) == names && forall p <- texts :: OneItem(p)
  {
    assert forall i :: 0 <= i < |names| ==> NamesIn(texts)[i] == names[i];
  }

  function ConflictNames(b: InsertBuilder): (r: seq<string>)
    ensures |r| == |b.conflictCols|
  {
    seq(|b.conflictCols|, i requires 0 <= i < |b.conflictCols| => b.conflictCols[i].name)
  }

  /** The values and columns of an INSERT that can be read one by one. */
  ghost predicate Legible(b: InsertBuilder) {
    && b.rows != [] && (forall row <- b.rows :: AllHaveText(row)) && AllHaveText(b.conflictUpdate)
  }

  function TargetText(b: InsertBuilder): seq<Token> {
    [Word("ON CONFLICT"), LParen] + Join(NameTexts(b.conflictCols), Comma) + [RParen]
  }

  lemma TargetRead(b: InsertBuilder, rest: seq<Token>)
    ensures Parenthesised((TargetText(b) + rest)[1..]) == Some((NameTexts(b.conflictCols), rest))
    ensures (TargetText(b) + rest)[0] == Word("ON CONFLICT")
    ensures NamesIn(NameTexts(b.conflictCols)) == ConflictNames(b)
  {
    NamesRead(NameTexts(b.conflictCols), ConflictNames(b));
    ParenthesisedRead(NameTexts(b.conflictCols), rest);
    assert (TargetText(b) + rest)[1..] == Parens(NameTexts(b.conflictCols)) + rest;
  }

  lemma NothingRead(b: InsertBuilder, ignore: bool, rest: seq<Token>)
    ensures ConflictAt(ignore, TargetText(b) + ([Word("DO NOTHING")] + rest)) == Some((Nothing(Some(ConflictNames(b))), rest))
  {
    TargetRead(b, [Word("DO NOTHING")] + rest);
    assert ([Word("DO NOTHING")] + rest)[1..] == rest;
    hide TargetText, Parenthesised, NameTexts;
  }

  lemma UpdatesRead(b: InsertBuilder, ignore: bool, sets: seq<Token>)
    ensures ConflictAt(ignore, TargetText(b) + ([Word("DO UPDATE SET")] + sets))
         == Some((Updates(Some(ConflictNames(b)), SetsAt(sets).0), SetsAt(sets).1))
  {
    TargetRead(b, [Word("DO UPDATE SET")] + sets);
    assert ([Word("DO UPDATE SET")] + sets)[1..] == sets;
    hide TargetText, Parenthesised, NameTexts, SetsAt;
  }

  lemma DuplicateRead(ignore: bool, sets: seq<Token>)
    ensures ConflictAt(ignore, [Word("ON DUPLICATE KEY UPDATE")] + sets) == Some((Updates(None, SetsAt(sets).0), SetsAt(sets).1))
  {
    assert ([Word("ON DUPLICATE KEY UPDATE")] + sets)[1..] == sets;
    hide SetsAt;
  }

  lemma UpdateClause(d: Dialect, keyword: string, sets: seq<Assignment>)
    ensures LayoutInline([Fixed([Word(keyword)])] + SetLayout(sets)) == [Word(keyword)] + LayoutInline(SetLayout(sets))
  {
    LayoutConcat(d, [Fixed([Word(keyword)])], SetLayout(sets), 0);
    LayoutSingle(d, Fixed([Word(keyword)]), 0);
  }

  /** The clause as text, in either dialect's form. */
  lemma ConflictInline(d: Dialect, b: InsertBuilder)
    ensures LayoutInline(ConflictLayout(d, b))
            == if b.conflictCols == [] then []
               else if d.onConflict then
                 TargetText(b) + (if b.conflictDoNothing then [Word("DO NOTHING")]
                                  else [Word("DO UPDATE SET")] + LayoutInline(SetLayout(b.conflictUpdate)))
               else if b.conflictDoNothing then []
               else [Word("ON DUPLICATE KEY UPDATE")] + LayoutInline(SetLayout(b.conflictUpdate))
  {
    UpdateClause(d, "DO UPDATE SET", b.conflictUpdate);
    UpdateClause(d, "ON DUPLICATE KEY UPDATE", b.conflictUpdate);
    LayoutSingle(d, Fixed([Word("DO NOTHING")]), 0);
    LayoutSingle(d, Fixed(TargetText(b)), 0);
    LayoutConcat(d, [Fixed(TargetText(b))], [Fixed([Word("DO NOTHING")])], 0);
    LayoutConcat(d, [Fixed(TargetText(b))], [Fixed([Word("DO UPDATE SET")])] + SetLayout(b.conflictUpdate), 0);
    EmptyLayout(d, 0);
    hide LayoutInline, SetLayout, NameTexts, Join;
  }

  /** The clause that follows the rows, and what is left for RETURNING. */
  lemma ConflictRead(d: Dialect, b: InsertBuilder, rest: seq<Token>)
    requires Legible(b) && (rest == [] || rest[0] == Word("RETURNING"))
    ensures var read := ConflictAt(MySqlStyle(d, b) && b.conflictDoNothing, LayoutInline(ConflictLayout(d, b)) + rest);
            read.Some? && ConflictAs(d, b, read.value.0) && read.value.1 == rest
  {
    ConflictInline(d, b);
    var ignore := MySqlStyle(d, b) && b.conflictDoNothing;
    var text, sets := LayoutInline(ConflictLayout(d, b)), LayoutInline(SetLayout(b.conflictUpdate));
    if b.conflictCols == [] || (!d.onConflict && b.conflictDoNothing) {
      assert text + rest == rest;
      hide LayoutInline, ConflictLayout;
    } else if d.onConflict && b.conflictDoNothing {
      NothingRead(b, ignore, rest);
      SeqAssociates(TargetText(b), [Word("DO NOTHING")], rest);
      hide LayoutInline, ConflictLayout, ConflictAt, TargetText;
    } else {
      SetsRead(b.conflictUpdate, rest);
      if d.onConflict {
        UpdatesRead(b, ignore, sets + rest);
        SeqAssociates(TargetText(b), [Word("DO UPDATE SET")] + sets, rest);
        SeqAssociates([Word("DO UPDATE SET")], sets, rest);
      } else {
        DuplicateRead(ignore, sets + rest);
        SeqAssociates([Word("ON DUPLICATE KEY UPDATE")], sets, rest);
      }
      hide LayoutInline, ConflictLayout, ConflictAt, TargetText, SetsAt, SetLayout;
    }
  }

  /** What the builder asks for, column by column and value by value. */
  ghost predicate InsertAs(d: Dialect, b: InsertBuilder, m: InsertMeaning)
    requires b.rows != []
  {
    && m.table == b.table
    && |m.columns| == |b.rows[0]| && (forall j :: 0 <= j < |m.columns| ==> m.columns[j] == b.rows[0][j].col.name)
    && |m.tuples| == |b.rows| && (forall i :: 0 <= i < |b.rows| ==> |m.tuples[i]| == |b.rows[i]|)
    && (forall i, j :: 0 <= i < |b.rows| && 0 <= j < |b.rows[i]| ==> Gives(b.rows[i][j], m.tuples[i][j]))
    && ConflictAs(d, b, m.onConflict)
    && |m.returning| == |b.returning| && (forall i :: 0 <= i < |b.returning| ==> m.returning[i] == [Ident(b.returning[i])])
  }

  lemma ReturningRead(b: InsertBuilder)
    ensures var clause := ListClause("RETURNING", ColumnTexts(b.returning));
            && (clause == [] || clause[0] == Word("RETURNING"))
            && ReturningAt(clause) == ColumnTexts(b.returning)
  {
    var texts := ColumnTexts(b.returning);
    if texts != [] {
      ListRead(texts, []);
      assert ([Word("RETURNING")] + Join(texts, Comma))[1..] == Join(texts, Comma) + [];
      hide ListAt, Join, ColumnTexts;
    }
  }

  function InsertKeyword(ignore: bool): Token {
    Word(if ignore then "INSERT IGNORE INTO" else "INSERT INTO")
  }

  /** The text of an INSERT whose names, tuples and closing clauses are these. */
  function InsertText(ignore: bool, table: string, names: seq<seq<Token>>, rows: seq<Token>, tail: seq<Token>): seq<Token> {
    [InsertKeyword(ignore), Name(table)] + (Parens(names) + ([Word("VALUES")] + (rows + tail)))
  }

  lemma ValuesRead(ignore: bool, table: string, columns: seq<string>, tuples: seq<seq<seq<Token>>>, tail: seq<Token>)
    requires tuples != [] && (forall t <- tuples, p <- t :: OneItem(p))
    requires (tail == [] || !tail[0].Comma?) && ConflictAt(ignore, tail).Some?
    ensures var (c, rest) := ConflictAt(ignore, tail).value;
            ValuesAt(ignore, table, columns, [Word("VALUES")] + (Join(TupleTexts(tuples), Comma) + tail))
            == Some(InsertMeaning(table, columns, tuples, c, ReturningAt(rest)))
  {
    TuplesRead(tuples, tail);
    var rows := Join(TupleTexts(tuples), Comma) + tail;
    assert ([Word("VALUES")] + rows)[1..] == rows;
    hide Join, TupleTexts, Tuples, ConflictAt, ReturningAt;
  }

  lemma TextRead(ignore: bool, table: string, names: seq<seq<Token>>, tuples: seq<seq<seq<Token>>>, tail: seq<Token>)
    requires (forall p <- names :: OneItem(p)) && tuples != [] && (forall t <- tuples, p <- t :: OneItem(p))
    requires (tail == [] || !tail[0].Comma?) && ConflictAt(ignore, tail).Some?
    ensures var (c, rest) := ConflictAt(ignore, tail).value;
            ReadInsert(InsertText(ignore, table, names, Join(TupleTexts(tuples), Comma), tail))
            == Some(InsertMeaning(table, NamesIn(names), tuples, c, ReturningAt(rest)))
  {
    var values := [Word("VALUES")] + (Join(TupleTexts(tuples), Comma) + tail);
    ValuesRead(ignore, table, NamesIn(names), tuples, tail);
    ParenthesisedRead(names, values);
    hide Join, TupleTexts, ConflictAt, ReturningAt, ValuesAt, NamesIn, Parenthesised, OneItem;
    StartKept(ignore, table, Parens(names) + values);
    hide Parens;
  }

  lemma StartKept(ignore: bool, table: string, rest: seq<Token>)
    ensures var text := [InsertKeyword(ignore), Name(table)] + rest;
            |text| >= 2 && text[0] == InsertKeyword(ignore) && text[1] == Name(table) && text[2..] == rest
  {
  }

  lemma HeadThen(d: Dialect, b: InsertBuilder, rows: seq<Token>, tail: seq<Token>)
    requires b.rows != []
    ensures InsertHead(d, b) + (rows + tail) == InsertText(MySqlStyle(d, b) && b.conflictDoNothing, b.table, TargetTexts(b.rows[0]), rows, tail)
  {
    hide Join, TargetTexts;
  }

  lemma InsertInline(d: Dialect, b: InsertBuilder)
    requires b.rows != []
    ensures LayoutInline(InsertLayout(d, b))
         == InsertText(MySqlStyle(d, b) && b.conflictDoNothing, b.table, TargetTexts(b.rows[0]), Join(TupleTexts(RowTexts(b.rows)), Comma),
                       LayoutInline(ConflictLayout(d, b)) + ListClause("RETURNING", ColumnTexts(b.returning)))
  {
    RowsInline(b.rows);
    var head, rows, conflict := InsertHead(d, b), RowsLayout(b.rows), ConflictLayout(d, b);
    var returning := ListClause("RETURNING", ColumnTexts(b.returning));
    LayoutConcat(d, [Fixed(head)] + rows + conflict, [Fixed(returning)], 0);
    LayoutConcat(d, [Fixed(head)] + rows, conflict, 0);
    LayoutConcat(d, [Fixed(head)], rows, 0);
    LayoutSingle(d, Fixed(head), 0);
    LayoutSingle(d, Fixed(returning), 0);
    HeadThen(d, b, LayoutInline(rows), LayoutInline(conflict) + returning);
    SeqAssociates(head + LayoutInline(rows), LayoutInline(conflict), returning);
    SeqAssociates(head, LayoutInline(rows), LayoutInline(conflict) + returning);
    hide LayoutInline, RowsLayout, ConflictLayout, ListClause, Join, TupleTexts, RowTexts, TargetTexts, InsertHead, InsertText;
  }

  lemma MeaningAs(d: Dialect, b: InsertBuilder, c: OnConflict)
    requires b.rows != [] && ConflictAs(d, b, c)
    ensures InsertAs(d, b, InsertMeaning(b.table, NamesIn(TargetTexts(b.rows[0])), RowTexts(b.rows), c, ColumnTexts(b.returning)))
  {
    ColumnNames(b.rows[0]);
    forall i, j | 0 <= i < |b.rows| && 0 <= j < |b.rows[i]|
      ensures Gives(b.rows[i][j], RowTexts(b.rows)[i][j])
    {
      ValueGiven(b.rows[i][j]);
    }
    hide ConflictAs;
  }

  lemma ConflictFound(d: Dialect, b: InsertBuilder) returns (c: OnConflict)
    requires Legible(b)
    ensures ConflictAs(d, b, c)
    ensures var tail := LayoutInline(ConflictLayout(d, b)) + ListClause("RETURNING", ColumnTexts(b.returning));
            ConflictAt(MySqlStyle(d, b) && b.conflictDoNothing, tail) == Some((c, ListClause("RETURNING", ColumnTexts(b.returning))))
  {
    ReturningRead(b);
    var returning := ListClause("RETURNING", ColumnTexts(b.returning));
    ConflictRead(d, b, returning);
    hide LayoutInline, ConflictLayout, ListClause, ConflictAt, MySqlStyle, ConflictAs, Legible;
    c := ConflictAt(MySqlStyle(d, b) && b.conflictDoNothing, LayoutInline(ConflictLayout(d, b)) + returning).value.0;
  }

  /** An engine reads in an INSERT exactly the columns, values, conflict clause and returned columns it was built from. */
  lemma InsertReads(d: Dialect, b: InsertBuilder)
    requires Legible(b)
    ensures var m := ReadInsert(LayoutInline(InsertLayout(d, b)));
            m.Some? && InsertAs(d, b, m.value)
  {
    InsertInline(d, b);
    ReturningRead(b);
    TailStarts(d, b);
    RowsLegible(b);
    ColumnNames(b.rows[0]);
    var c := ConflictFound(d, b);
    MeaningAs(d, b, c);
    hide LayoutInline, InsertLayout, ConflictLayout, ListClause, Join, TupleTexts, ConflictAt, ReturningAt, MySqlStyle, InsertText, ReadInsert;
    hide InsertAs, RowTexts, ConflictAs, NamesIn, TargetTexts, ColumnTexts, OneItem;
    TextRead(MySqlStyle(d, b) && b.conflictDoNothing, b.table, TargetTexts(b.rows[0]), RowTexts(b.rows),
             LayoutInline(ConflictLayout(d, b)) + ListClause("RETURNING", ColumnTexts(b.returning)));
  }

  lemma TailStarts(d: Dialect, b: InsertBuilder)
    ensures var tail := LayoutInline(ConflictLayout(d, b)) + ListClause("RETURNING", ColumnTexts(b.returning));
            tail == [] || !tail[0].Comma?
  {
    ConflictInline(d, b);
    hide LayoutInline, ConflictLayout, Join;
  }

  lemma ColumnNames(row: seq<Assignment>)
    ensures forall p <- TargetTexts(row) :: OneItem(p)
    ensures var names := NamesIn(TargetTexts(row)); forall j :: 0 <= j < |names| ==> names[j] == row[j].col.name
  {
  }

  lemma RowsLegible(b: InsertBuilder)
    requires Legible(b)
    ensures forall t <- RowTexts(b.rows), p <- t :: OneItem(p)
  {
    forall t, p | t in RowTexts(b.rows) && p in t
      ensures OneItem(p)
    {
      var i :| 0 <= i < |b.rows| && t == ValueTexts(b.rows[i]);
      var j :| 0 <= j < |b.rows[i]| && p == ValueInline(b.rows[i][j]);
      assert b.rows[i] in b.rows && b.rows[i][j] in b.rows[i];
      ValueIsItem(b.rows[i][j]);
    }
  }

  /** Every row gives values to the same columns in the same order, and to none twice. */
  ghost predicate OneColumnList(rows: seq<seq<Assignment>>)
    requires rows != []
  {
    && (forall i :: 0 <= i < |rows| ==> |rows[i]| == |rows[0]|)
    && (forall i, j :: 0 <= i < |rows| && 0 <= j < |rows[0]| ==> rows[i][j].col.name == rows[0][j].col.name)
    && (forall j, k :: 0 <= j < k < |rows[0]| ==> rows[0][j].col.name != rows[0][k].col.name)
  }

  /** So every row inserted has in each of its columns the very value it was given there. */
  lemma RowsInserted(d: Dialect, b: InsertBuilder, i: nat, j: nat)
    requires Legible(b) && OneColumnList(b.rows) && i < |b.rows| && j < |b.rows[i]|
    ensures var m := ReadInsert(LayoutInline(InsertLayout(d, b)));
            && m.Some? && i < |m.value.tuples| && |m.value.columns| == |m.value.tuples[i]|
            && var row := RowOf(m.value.columns, m.value.tuples[i]);
               b.rows[i][j].col.name in row && Gives(b.rows[i][j], row[b.rows[i][j].col.name])
  {
    InsertReads(d, b);
    hide ReadInsert, LayoutInline, InsertLayout;
    var m := ReadInsert(LayoutInline(InsertLayout(d, b))).value;
    RowOfAt(m.columns, m.tuples[i], j);
  }

  lemma {:induction false} RowOfAt(columns: seq<string>, values: seq<seq<Token>>, j: nat)
    requires |columns| == |values| && j < |columns| && forall i, k :: 0 <= i < k < |columns| ==> columns[i] != columns[k]
    ensures columns[j] in RowOf(columns, values) && RowOf(columns, values)[columns[j]] == values[j]
    decreases |columns|
  {
    if j > 0 {
      RowOfAt(columns[1..], values[1..], j - 1);
    }
  }

  // ----- UPDATE and DELETE -----

  predicate StartsWithWord(ts: seq<Token>) {
    ts == [] || ts[0].Word?
  }

  lemma TableRead(t: Table, rest: seq<Token>)
    requires rest == [] || rest[0] != Word("AS")
    ensures TableAt(TableText(t) + rest) == Some((t, rest))
  {
    var text := TableText(t) + rest;
    if t.alias != "" {
      assert text[3..] == rest;
    } else {
      assert text[1..] == rest;
      assert rest != [] ==> text[1] == rest[0];
    }
  }

  lemma ConditionInline(keyword: string, p: Predicate)
    ensures LayoutInline(ConditionClause(keyword, p)) == if p.IsZero() then [] else [Word(keyword)] + Inline(p)
  {
    var dialect := Dialect(true, true, true, true, true);
    EmptyLayout(dialect, 0);
    LayoutConcat(dialect, [Fixed([Word(keyword)])], [Condition(p)], 0);
    LayoutSingle(dialect, Fixed([Word(keyword)]), 0);
    LayoutSingle(dialect, Condition(p), 0);
  }

  lemma UpdateTextRead(t: Table, sets: seq<Token>)
    ensures ReadUpdate([Word("UPDATE")] + (TableText(t) + ([Word("SET")] + sets))) == Some((t, SetsAt(sets).0))
  {
    var rest := [Word("SET")] + sets;
    TableRead(t, rest);
    assert rest[1..] == sets;
    var text := [Word("UPDATE")] + (TableText(t) + rest);
    assert text[1..] == TableText(t) + rest && text[0] == Word("UPDATE");
    hide TableAt, TableText, SetsAt;
  }

  lemma UpdateInline(b: UpdateBuilder)
    ensures LayoutInline(UpdateLayout(b))
         == [Word("UPDATE")] + (TableText(b.table) + ([Word("SET")] + (LayoutInline(SetLayout(b.assignments)) + LayoutInline(ConditionClause("WHERE", b.where)))))
  {
    var d := Dialect(true, true, true, true, true);
    var head := [Word("UPDATE")] + TableText(b.table) + [Word("SET")];
    LayoutConcat(d, [Fixed(head)] + SetLayout(b.assignments), ConditionClause("WHERE", b.where), 0);
    LayoutConcat(d, [Fixed(head)], SetLayout(b.assignments), 0);
    LayoutSingle(d, Fixed(head), 0);
    hide LayoutInline, SetLayout, ConditionClause, TableText;
    Nested([Word("UPDATE")], TableText(b.table), [Word("SET")], LayoutInline(SetLayout(b.assignments)), LayoutInline(ConditionClause("WHERE", b.where)));
  }

  lemma Nested<T>(a: seq<T>, b: seq<T>, c: seq<T>, d: seq<T>, e: seq<T>)
    ensures a + b + c + d + e == a + (b + (c + (d + e)))
  {
  }

  /** An engine reads in an UPDATE its table and, for each assignment in turn, the column it sets and what to. */
  lemma UpdateSets(b: UpdateBuilder)
    requires AllHaveText(b.assignments)
    ensures var m := ReadUpdate(LayoutInline(UpdateLayout(b)));
            m.Some? && m.value.0 == b.table && SetsAs(m.value.1, b.assignments)
  {
    var where := LayoutInline(ConditionClause("WHERE", b.where));
    ConditionInline("WHERE", b.where);
    SetsRead(b.assignments, where);
    UpdateInline(b);
    UpdateTextRead(b.table, LayoutInline(SetLayout(b.assignments)) + where);
    hide LayoutInline, UpdateLayout, SetLayout, ConditionClause, TableText, SetsAt, SetsAs, ReadUpdate;
  }

  lemma DeleteTextRead(t: Table, where: seq<Token>)
    requires where == [] || where[0] != Word("AS")
    ensures ReadDelete([Word("DELETE FROM")] + TableText(t) + where) == Some(t)
  {
    TableRead(t, where);
    var text := [Word("DELETE FROM")] + TableText(t) + where;
    assert text[1..] == TableText(t) + where && text[0] == Word("DELETE FROM");
    hide TableAt, TableText;
  }

  lemma DeleteFrom(b: DeleteBuilder)
    ensures ReadDelete(LayoutInline(DeleteLayout(b))) == Some(b.table)
  {
    var d := Dialect(true, true, true, true, true);
    var head, where := [Word("DELETE FROM")] + TableText(b.table), LayoutInline(ConditionClause("WHERE", b.where));
    ConditionInline("WHERE", b.where);
    LayoutConcat(d, [Fixed(head)], ConditionClause("WHERE", b.where), 0);
    LayoutSingle(d, Fixed(head), 0);
    DeleteTextRead(b.table, where);
    hide LayoutInline, ConditionClause, TableText, ReadDelete;
  }

  // ----- Conditions, names and values contain no keyword of a clause -----

  predicate Wordless(ts: seq<Token>) {
    forall t <- ts :: !t.Word?
  }

  lemma {:induction false} JoinWordless(parts: seq<seq<Token>>, separator: Token)
    requires !separator.Word? && forall part <- parts :: Wordless(part)
    ensures Wordless(Join(parts, separator))
    decreases |parts|
  {
    if |parts| > 1 {
      assert parts[0] in parts && forall part <- parts[1..] :: part in parts;
      JoinWordless(parts[1..], separator);
    }
  }

  lemma {:induction false} InlineWordless(p: Predicate)
    ensures Wordless(Inline(p))
    decreases p, 0
  {
    match p
    case And(children) => InlineAllWordless(children); JoinWordless(InlineAll(children), KwAnd);
    case Or(children) => InlineAllWordless(children); JoinWordless(InlineAll(children), KwOr);
    case Not(child) => InlineWordless(child);
    case In(_, values) => JoinWordless(Literals(values), Comma);
    case NotIn(_, values) => JoinWordless(Literals(values), Comma);
    case _ =>
  }

  lemma {:induction false} InlineAllWordless(ps: seq<Predicate>)
    ensures forall part <- InlineAll(ps) :: Wordless(part)
    decreases ps, 0
  {
    if ps != [] {
      InlineWordless(ps[0]);
      InlineAllWordless(ps[1..]);
    }
  }

  // ----- SELECT -----

  /** What is selected from where, as the builder has it. */
  ghost predicate StartAs(b: SelectBuilder, m: SelectStart) {
    && m.distinct == b.distinct && m.table == b.table
    && |m.list| == |b.columns| + |b.selectRaw|
    && (forall i :: 0 <= i < |b.columns| ==> m.list[i] == [Ident(b.columns[i])])
    && (forall i :: 0 <= i < |b.selectRaw| ==> m.list[|b.columns| + i] == [Own(b.selectRaw[i])])
  }

  function ListText(list: seq<seq<Token>>): seq<Token> {
    if list == [] then [Word("*")] else Join(list, Comma)
  }

  function SelectText(distinct: bool, list: seq<seq<Token>>, t: Table, rest: seq<Token>): seq<Token> {
    (if distinct then [Word("SELECT"), Word("DISTINCT")] else [Word("SELECT")]) + (ListText(list) + ([Word("FROM")] + (TableText(t) + rest)))
  }

  lemma ListOrAllRead(list: seq<seq<Token>>, from: seq<Token>)
    requires (forall p <- list :: OneItem(p)) && from != [] && from[0] == Word("FROM")
    ensures ListOrAll(ListText(list) + from) == (list, from)
    ensures ListText(list) != [] && (ListText(list) + from)[0] != Word("DISTINCT")
  {
    if list == [] {
      assert (ListText(list) + from)[1..] == from;
    } else {
      ListRead(list, from);
      assert list[0] in list;
      JoinStarts(list);
      hide ListAt, Join;
    }
  }

  lemma SelectTextRead(distinct: bool, list: seq<seq<Token>>, t: Table, rest: seq<Token>)
    requires (forall p <- list :: OneItem(p)) && (rest == [] || rest[0] != Word("AS"))
    ensures ReadSelect(SelectText(distinct, list, t, rest)) == Some((SelectStart(distinct, list, t), rest))
  {
    var from := [Word("FROM")] + (TableText(t) + rest);
    TableRead(t, rest);
    assert from[1..] == TableText(t) + rest;
    ListOrAllRead(list, from);
    var body, text := ListText(list) + from, SelectText(distinct, list, t, rest);
    hide TableAt, TableText, ListOrAll, ListText;
    if distinct {
      assert text[2..] == body && text[1] == Word("DISTINCT");
    } else {
      assert text[1..] == body && text[1] == body[0];
    }
    hide SelectText;
  }

  lemma HeadIs(b: SelectBuilder, rest: seq<Token>)
    ensures SelectHead(b) + rest == SelectText(b.distinct, ColumnTexts(b.columns) + OwnTexts(b.selectRaw), b.table, rest)
  {
    var list := ColumnTexts(b.columns) + OwnTexts(b.selectRaw);
    var verb := if b.distinct then [Word("SELECT"), Word("DISTINCT")] else [Word("SELECT")];
    hide Join, ColumnTexts, OwnTexts, TableText;
    assert SelectHead(b) == verb + ListText(list) + [Word("FROM")] + TableText(b.table);
    hide SelectHead, ListText;
    Nested(verb, ListText(list), [Word("FROM")], TableText(b.table), rest);
  }

  /** A SELECT starts with its list and its table. */
  lemma StartRead(b: SelectBuilder, rest: seq<Token>)
    requires rest == [] || rest[0] != Word("AS")
    ensures var m := ReadSelect(SelectHead(b) + rest);
            m.Some? && StartAs(b, m.value.0) && m.value.1 == rest
  {
    var list := ColumnTexts(b.columns) + OwnTexts(b.selectRaw);
    HeadIs(b, rest);
    SelectTextRead(b.distinct, list, b.table, rest);
    hide ReadSelect, SelectHead, SelectText;
  }

  /** Each join in turn keeps or drops unmatched rows, and is of its own table. */
  ghost predicate JoinsAs(joins: seq<JoinClause>, read: seq<(bool, Table)>) {
    |read| == |joins| && forall i :: 0 <= i < |joins| ==> read[i] == (joins[i].left, joins[i].table)
  }

  lemma {:induction false} NextAfter(condition: seq<Token>, rest: seq<Token>)
    requires Wordless(condition) && StartsWithWord(rest)
    ensures NextClause(condition + rest) == rest
    decreases |condition|
  {
    if condition == [] {
      assert condition + rest == rest;
    } else {
      assert condition[0] in condition && forall t <- condition[1..] :: t in condition;
      assert (condition + rest)[1..] == condition[1..] + rest;
      NextAfter(condition[1..], rest);
    }
  }

  lemma JoinTextRead(j: JoinClause, on: seq<Token>)
    ensures JoinAt(JoinHead(j) + on) == Some(((j.left, j.table), on))
  {
    var text, rest := JoinHead(j) + on, [Word("ON")] + on;
    TableRead(j.table, rest);
    assert text[1..] == TableText(j.table) + rest && rest[1..] == on;
    hide TableAt, TableText;
  }

  lemma JoinInline(joins: seq<JoinClause>)
    requires joins != []
    ensures LayoutInline(JoinLayout(joins)) == JoinHead(joins[0]) + (Inline(joins[0].on) + LayoutInline(JoinLayout(joins[1..])))
  {
    hide Inline, JoinHead;
    var dialect := Dialect(true, true, true, true, true);
    var first := [Fixed(JoinHead(joins[0])), Condition(joins[0].on)];
    LayoutConcat(dialect, first, JoinLayout(joins[1..]), 0);
    assert first[1..] == [Condition(joins[0].on)];
    LayoutSingle(dialect, Condition(joins[0].on), 0);
    assert LayoutInline(first) == JoinHead(joins[0]) + LayoutInline([Condition(joins[0].on)]);
  }

  lemma JoinsStart(joins: seq<JoinClause>)
    ensures StartsWithWord(LayoutInline(JoinLayout(joins)))
  {
    if joins != [] {
      JoinInline(joins);
    }
  }

  lemma OneJoinRead(j: JoinClause, on: seq<Token>, more: seq<Token>)
    requires Wordless(on) && StartsWithWord(more)
    ensures JoinsAt(JoinHead(j) + (on + more)) == ([(j.left, j.table)] + JoinsAt(more).0, JoinsAt(more).1)
  {
    JoinTextRead(j, on + more);
    NextAfter(on, more);
    hide JoinAt, NextClause;
  }

  lemma JoinsAsCons(joins: seq<JoinClause>, read: seq<(bool, Table)>)
    requires joins != [] && JoinsAs(joins[1..], read)
    ensures JoinsAs(joins, [(joins[0].left, joins[0].table)] + read)
  {
  }

  lemma {:induction false} JoinsRead(joins: seq<JoinClause>, rest: seq<Token>)
    requires rest == [] || (rest[0].Word? && rest[0] != Word("JOIN") && rest[0] != Word("LEFT JOIN"))
    ensures JoinsAs(joins, JoinsAt(LayoutInline(JoinLayout(joins)) + rest).0)
    ensures JoinsAt(LayoutInline(JoinLayout(joins)) + rest).1 == rest
    decreases |joins|
  {
    if joins == [] {
      assert LayoutInline(JoinLayout(joins)) + rest == rest;
    } else {
      JoinInline(joins);
      InlineWordless(joins[0].on);
      JoinsStart(joins[1..]);
      JoinsRead(joins[1..], rest);
      hide Inline, JoinLayout, LayoutInline, JoinHead, JoinsAt, Wordless;
      var on, more := Inline(joins[0].on), LayoutInline(JoinLayout(joins[1..]));
      StartsThen(more, rest);
      hide StartsWithWord;
      OneJoinRead(joins[0], on, more + rest);
      SeqAssociates(on, more, rest);
      SeqAssociates(JoinHead(joins[0]), on + more, rest);
      JoinsAsCons(joins, JoinsAt(more + rest).0);
      hide JoinsAs;
    }
  }

  lemma StartsThen(a: seq<Token>, b: seq<Token>)
    requires StartsWithWord(a) && StartsWithWord(b)
    ensures StartsWithWord(a + b)
  {
  }

  /** The ordering, term by term. */
  ghost predicate OrderAs(order: seq<OrderTerm>, read: seq<Direction>) {
    |read| == |order| && forall i :: 0 <= i < |order| ==>
      match order[i]
      case Asc(c) => read[i] == Ascending(c)
      case Desc(c) => read[i] == Descending(c)
      case OrderRaw(s) => read[i] == ByOwn(s)
  }

  lemma DirectionRead(o: OrderTerm, rest: seq<Token>)
    ensures var m := DirectionAt(OrderText(o) + rest);
            m.Some? && OrderAs([o], [m.value.0]) && m.value.1 == rest
  {
    var text := OrderText(o) + rest;
    if o.OrderRaw? {
      assert text[1..] == rest;
    } else {
      assert text[2..] == rest;
    }
  }

  lemma OrderAsCons(os: seq<OrderTerm>, first: Direction, read: seq<Direction>)
    requires os != [] && OrderAs([os[0]], [first]) && OrderAs(os[1..], read)
    ensures OrderAs(os, [first] + read)
  {
    assert [os[0]][0] == os[0] && [first][0] == first;
    assert forall i :: 1 <= i < |os| ==> os[i] == os[1..][i - 1];
  }

  lemma DirectionsStep(o: OrderTerm, more: seq<Token>)
    requires DirectionsAt(more).Some?
    ensures var m := DirectionsAt(OrderText(o) + ([Comma] + more));
            m.Some? && m.value.0 != [] && OrderAs([o], [m.value.0[0]])
            && m.value == ([m.value.0[0]] + DirectionsAt(more).value.0, DirectionsAt(more).value.1)
  {
    DirectionRead(o, [Comma] + more);
    assert ([Comma] + more)[1..] == more;
    hide DirectionAt, OrderText;
  }

  lemma {:induction false} DirectionsRead(os: seq<OrderTerm>, rest: seq<Token>)
    requires os != [] && (rest == [] || !rest[0].Comma?)
    ensures var m := DirectionsAt(Join(OrderTexts(os), Comma) + rest);
            m.Some? && OrderAs(os, m.value.0) && m.value.1 == rest
    decreases |os|
  {
    if |os| == 1 {
      DirectionRead(os[0], rest);
      assert Join(OrderTexts(os), Comma) == OrderText(os[0]) && os == [os[0]];
      hide DirectionAt, OrderText;
    } else {
      assert OrderTexts(os)[1..] == OrderTexts(os[1..]);
      var more := Join(OrderTexts(os[1..]), Comma);
      assert Join(OrderTexts(os), Comma) == OrderText(os[0]) + [Comma] + more;
      DirectionsRead(os[1..], rest);
      hide DirectionsAt, OrderText, OrderTexts, Join, OrderAs;
      DirectionsStep(os[0], more + rest);
      Listed(OrderText(os[0]), more, rest);
      OrderAsCons(os, DirectionsAt(OrderText(os[0]) + ([Comma] + (more + rest))).value.0[0], DirectionsAt(more + rest).value.0);
    }
  }

  /** Ordering, paging and lock, as the builder has them. */
  ghost predicate EndAs(b: SelectBuilder, m: SelectEnd) {
    && OrderAs(b.order, m.order) && m.limit == b.limit && m.offset == b.offset
    && (m.lock.ForUpdate? <==> b.forUpdate) && (m.lock.ForShare? <==> b.forShare && !b.forUpdate)
    && m.skipLocked == b.skipLocked
  }

  function LockText(b: SelectBuilder): seq<Token> {
    (if b.forUpdate then [Word("FOR UPDATE")] else if b.forShare then [Word("FOR SHARE")] else [])
    + (if b.skipLocked then [Word("SKIP LOCKED")] else [])
  }

  function NumberText(keyword: string, n: Option<int>): seq<Token> {
    if n.Some? then [Word(keyword), Num(n.value)] else []
  }

  lemma NumberRead(keyword: string, n: Option<int>, rest: seq<Token>)
    requires rest == [] || rest[0] != Word(keyword)
    ensures NumberAt(keyword, NumberText(keyword, n) + rest) == (n, rest)
  {
    if n.Some? {
      assert (NumberText(keyword, n) + rest)[2..] == rest;
    } else {
      assert NumberText(keyword, n) + rest == rest;
    }
  }

  lemma TailIs(b: SelectBuilder)
    ensures SelectTail(b) == ListClause("ORDER BY", OrderTexts(b.order))
                             + (NumberText("LIMIT", b.limit) + (NumberText("OFFSET", b.offset) + LockText(b)))
  {
    hide ListClause;
  }

  lemma OrderRead(order: seq<OrderTerm>, rest: seq<Token>)
    requires rest == [] || (rest[0].Word? && rest[0] != Word("ORDER BY"))
    ensures var m := OrderAt(ListClause("ORDER BY", OrderTexts(order)) + rest);
            m.Some? && OrderAs(order, m.value.0) && m.value.1 == rest
  {
    var text := ListClause("ORDER BY", OrderTexts(order)) + rest;
    if order == [] {
      assert text == rest;
    } else {
      DirectionsRead(order, rest);
      assert text[1..] == Join(OrderTexts(order), Comma) + rest;
    }
    hide DirectionsAt, Join, OrderTexts;
  }

  lemma LockRead(b: SelectBuilder)
    ensures var (lock, last) := LockAt(LockText(b));
            && (lock.ForUpdate? <==> b.forUpdate) && (lock.ForShare? <==> b.forShare && !b.forUpdate)
            && last == if b.skipLocked then [Word("SKIP LOCKED")] else []
  {
    var skip: seq<Token> := if b.skipLocked then [Word("SKIP LOCKED")] else [];
    if b.forUpdate {
      assert LockText(b)[1..] == skip;
    } else if b.forShare {
      assert LockText(b)[1..] == skip;
    } else {
      assert LockText(b) == skip;
    }
  }

  lemma PagingStarts(b: SelectBuilder)
    ensures var lock := LockText(b); lock == [] || (lock[0].Word? && lock[0] != Word("OFFSET"))
    ensures var offset := NumberText("OFFSET", b.offset) + LockText(b); offset == [] || (offset[0].Word? && offset[0] != Word("LIMIT"))
    ensures var limit := NumberText("LIMIT", b.limit) + (NumberText("OFFSET", b.offset) + LockText(b));
            limit == [] || (limit[0].Word? && limit[0] != Word("ORDER BY"))
  {
  }

  lemma EndRead(b: SelectBuilder)
    ensures var m := ReadSelectEnd(SelectTail(b)); m.Some? && EndAs(b, m.value)
  {
    TailIs(b);
    PagingStarts(b);
    LockRead(b);
    hide SelectTail, OrderAt, NumberAt, NumberText, OrderTexts, LockAt, LockText, OrderAs, ListClause;
    var lock := LockText(b);
    var offset := NumberText("OFFSET", b.offset) + lock;
    NumberRead("OFFSET", b.offset, lock);
    NumberRead("LIMIT", b.limit, offset);
    OrderRead(b.order, NumberText("LIMIT", b.limit) + offset);
  }

  // ----- Whole SELECT statements -----

  /** After its condition a SELECT goes on with a keyword or ends. */
  function SelectRest(b: SelectBuilder): seq<Piece> {
    [Fixed(ListClause("GROUP BY", ColumnTexts(b.groupBy)))] + ConditionClause("HAVING", b.having) + [Fixed(SelectTail(b))]
  }

  lemma ConditionStarts(keyword: string, p: Predicate)
    ensures StartsWithWord(LayoutInline(ConditionClause(keyword, p)))
  {
    ConditionInline(keyword, p);
  }

  lemma TailStartsWithWord(b: SelectBuilder)
    ensures StartsWithWord(SelectTail(b))
  {
  }

  lemma RestInline(b: SelectBuilder)
    ensures LayoutInline(SelectRest(b))
         == ListClause("GROUP BY", ColumnTexts(b.groupBy)) + LayoutInline(ConditionClause("HAVING", b.having)) + SelectTail(b)
    ensures StartsWithWord(LayoutInline(SelectRest(b)))
  {
    hide ConditionClause;
    var dialect := Dialect(true, true, true, true, true);
    var g, h, t := ListClause("GROUP BY", ColumnTexts(b.groupBy)), ConditionClause("HAVING", b.having), SelectTail(b);
    LayoutConcat(dialect, [Fixed(g)] + h, [Fixed(t)], 0);
    LayoutConcat(dialect, [Fixed(g)], h, 0);
    LayoutSingle(dialect, Fixed(g), 0);
    LayoutSingle(dialect, Fixed(t), 0);
    ConditionStarts("HAVING", b.having);
    TailStartsWithWord(b);
    hide LayoutInline, SelectTail;
    StartsThen(g, LayoutInline(h));
    StartsThen(g + LayoutInline(h), t);
  }

  lemma SelectInline(b: SelectBuilder)
    ensures LayoutInline(SelectLayout(b))
         == SelectHead(b) + LayoutInline(JoinLayout(b.joins)) + LayoutInline(ConditionClause("WHERE", b.where)) + LayoutInline(SelectRest(b))
  {
    hide Inline, SelectHead, SelectTail, ListClause, JoinLayout, ConditionClause, LayoutInline;
    var dialect := Dialect(true, true, true, true, true);
    var head, joins, where := SelectHead(b), JoinLayout(b.joins), ConditionClause("WHERE", b.where);
    assert SelectLayout(b) == [Fixed(head)] + joins + where + SelectRest(b);
    LayoutConcat(dialect, [Fixed(head)] + joins + where, SelectRest(b), 0);
    LayoutConcat(dialect, [Fixed(head)] + joins, where, 0);
    LayoutConcat(dialect, [Fixed(head)], joins, 0);
    LayoutSingle(dialect, Fixed(head), 0);
  }

  lemma ConditionSkipped(keyword: string, p: Predicate, rest: seq<Token>)
    requires rest == [] || (rest[0].Word? && rest[0] != Word(keyword))
    ensures SkipCondition(keyword, LayoutInline(ConditionClause(keyword, p)) + rest) == rest
  {
    ConditionInline(keyword, p);
    if !p.IsZero() {
      InlineWordless(p);
      hide Inline, LayoutInline, ConditionClause, Wordless;
      ConditionTextSkipped(keyword, Inline(p), rest);
    } else {
      hide LayoutInline, ConditionClause;
      assert LayoutInline(ConditionClause(keyword, p)) + rest == rest;
    }
  }

  lemma ConditionTextSkipped(keyword: string, condition: seq<Token>, rest: seq<Token>)
    requires Wordless(condition) && StartsWithWord(rest)
    ensures SkipCondition(keyword, [Word(keyword)] + condition + rest) == rest
  {
    NextAfter(condition, rest);
    hide NextClause;
    assert ([Word(keyword)] + condition + rest)[1..] == condition + rest;
  }

  lemma GroupsRead(b: SelectBuilder, rest: seq<Token>)
    requires rest == [] || (rest[0].Word? && rest[0] != Word("GROUP BY"))
    ensures GroupsAt(ListClause("GROUP BY", ColumnTexts(b.groupBy)) + rest) == (ColumnTexts(b.groupBy), rest)
  {
    var texts := ColumnTexts(b.groupBy);
    var text := ListClause("GROUP BY", texts) + rest;
    if texts == [] {
      assert text == rest;
    } else {
      ListRead(texts, rest);
      assert text[1..] == Join(texts, Comma) + rest;
    }
    hide Join, ColumnTexts, ListAt;
  }

  /** What the builder asks for: the list and table, each join's table, the grouping, the ordering, the paging, the lock. */
  ghost predicate SelectAs(b: SelectBuilder, m: SelectMeaning) {
    && StartAs(b, m.start) && JoinsAs(b.joins, m.joins)
    && |m.groupBy| == |b.groupBy| && (forall i :: 0 <= i < |b.groupBy| ==> m.groupBy[i] == [Ident(b.groupBy[i])])
    && EndAs(b, m.end)
  }

  lemma ClausesStart(b: SelectBuilder)
    ensures var tail := SelectTail(b);
            tail == [] || (tail[0].Word? && tail[0] != Word("HAVING"))
    ensures var having := LayoutInline(ConditionClause("HAVING", b.having)) + SelectTail(b);
            having == [] || (having[0].Word? && having[0] != Word("GROUP BY"))
    ensures var rest := LayoutInline(SelectRest(b));
            rest == [] || (rest[0].Word? && rest[0] != Word("WHERE"))
    ensures var where := LayoutInline(ConditionClause("WHERE", b.where)) + LayoutInline(SelectRest(b));
            where == [] || (where[0].Word? && where[0] != Word("JOIN") && where[0] != Word("LEFT JOIN"))
    ensures var joins := LayoutInline(JoinLayout(b.joins)) + (LayoutInline(ConditionClause("WHERE", b.where)) + LayoutInline(SelectRest(b)));
            joins == [] || joins[0] != Word("AS")
  {
    TailWords(b);
    ConditionInline("HAVING", b.having);
    ConditionInline("WHERE", b.where);
    RestInline(b);
    JoinsFirst(b.joins);
    hide LayoutInline, SelectTail, ConditionClause, SelectRest, JoinLayout, Inline;
  }

  lemma JoinsFirst(joins: seq<JoinClause>)
    ensures var text := LayoutInline(JoinLayout(joins)); text == [] || text[0] == Word("JOIN") || text[0] == Word("LEFT JOIN")
  {
    if joins != [] {
      JoinInline(joins);
    }
  }

  lemma TailWords(b: SelectBuilder)
    ensures var tail := SelectTail(b);
            tail == [] || (tail[0].Word? && tail[0] != Word("HAVING") && tail[0] != Word("WHERE") && tail[0] != Word("GROUP BY")
                           && tail[0] != Word("JOIN") && tail[0] != Word("LEFT JOIN") && tail[0] != Word("AS"))
  {
  }

  lemma PartsTogether(text: seq<Token>, afterStart: seq<Token>, afterJoins: seq<Token>, rest: seq<Token>, groups: seq<seq<Token>>, having: seq<Token>, end: seq<Token>)
    requires ReadSelect(text).Some? && ReadSelect(text).value.1 == afterStart && JoinsAt(afterStart).1 == afterJoins
    requires SkipCondition("WHERE", afterJoins) == rest && GroupsAt(rest) == (groups, having)
    requires SkipCondition("HAVING", having) == end && ReadSelectEnd(end).Some?
    ensures ReadSelectStatement(text)
         == Some(SelectMeaning(ReadSelect(text).value.0, JoinsAt(afterStart).0, groups, ReadSelectEnd(end).value))
  {
    hide ReadSelect, JoinsAt, SkipCondition, GroupsAt, ReadSelectEnd;
  }

  lemma AfterStart(b: SelectBuilder)
    ensures LayoutInline(SelectLayout(b))
         == SelectHead(b) + (LayoutInline(JoinLayout(b.joins)) + (LayoutInline(ConditionClause("WHERE", b.where)) + LayoutInline(SelectRest(b))))
    ensures LayoutInline(SelectRest(b))
         == ListClause("GROUP BY", ColumnTexts(b.groupBy)) + (LayoutInline(ConditionClause("HAVING", b.having)) + SelectTail(b))
  {
    SelectInline(b);
    RestInline(b);
    hide LayoutInline, SelectLayout, SelectHead, JoinLayout, ConditionClause, SelectRest, SelectTail, ListClause;
    var joins, where, rest := LayoutInline(JoinLayout(b.joins)), LayoutInline(ConditionClause("WHERE", b.where)), LayoutInline(SelectRest(b));
    SeqAssociates(SelectHead(b) + joins, where, rest);
    SeqAssociates(SelectHead(b), joins, where + rest);
    SeqAssociates(ListClause("GROUP BY", ColumnTexts(b.groupBy)), LayoutInline(ConditionClause("HAVING", b.having)), SelectTail(b));
  }

  /** An engine reads in a SELECT exactly the parts it was built from; what its conditions mean is read elsewhere. */
  lemma SelectPartsRead(b: SelectBuilder)
    ensures var m := ReadSelectStatement(LayoutInline(SelectLayout(b)));
            m.Some? && SelectAs(b, m.value)
  {
    AfterStart(b);
    ClausesStart(b);
    EndRead(b);
    var joins, where, rest := LayoutInline(JoinLayout(b.joins)), LayoutInline(ConditionClause("WHERE", b.where)), LayoutInline(SelectRest(b));
    var having, tail := LayoutInline(ConditionClause("HAVING", b.having)), SelectTail(b);
    StartRead(b, joins + (where + rest));
    JoinsRead(b.joins, where + rest);
    ConditionSkipped("WHERE", b.where, rest);
    GroupsRead(b, having + tail);
    ConditionSkipped("HAVING", b.having, tail);
    hide LayoutInline, SelectLayout, SelectHead, JoinLayout, ConditionClause, SelectRest, SelectTail, ListClause, ReadSelect, JoinsAt,
         SkipCondition, GroupsAt, ReadSelectEnd, ReadSelectStatement, StartAs, JoinsAs, EndAs;
    PartsTogether(LayoutInline(SelectLayout(b)), joins + (where + rest), where + rest, rest, ColumnTexts(b.groupBy), having + tail, tail);
  }
}
