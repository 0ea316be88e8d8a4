/**
 Inserting many rows in bounded batches (pack/create_all.go): every row once, in order, no
 statement with more values than PostgreSQL takes, and the right id back on every row.
 */
module CreateAll {
  import opened Results
  import opened SqlText
  import opened Predicates
  import opened Rendering
  import opened Statements
  import opened StatementErrors
  import opened SqlReader
  import opened ReadBack
  import opened Builders

  const DEFAULT_BATCH_SIZE := 1000
  const MAX_PARAMS := 65535

  /** A row: the values of its insert columns, whether its composite key is unset, and its generated id. */
  datatype Record = Record(values: seq<Value>, zeroKey: bool, id: Option<int>)

  datatype Target = Target(table: string, columns: seq<Column>, autoIncrement: seq<Column>, compositeKey: bool)

  datatype Conflict = Conflict(cols: seq<Column>, doNothing: bool, doUpdate: seq<Assignment>)

  /** What the database answers to one statement. */
  datatype Reply = Inserted(firstID: int, returned: seq<int>) | Refused

  datatype CreateError = ZeroCompositeKey | RenderFailed(error: RenderError) | DatabaseFailed | FewerRows

  /** Rows per statement. */
  function BatchSize(asked: int, columns: nat): (size: nat)
    ensures size >= 1
  {
    var size := if asked <= 0 then DEFAULT_BATCH_SIZE else asked;
    var capped := if columns > 0 && MAX_PARAMS / columns < size then MAX_PARAMS / columns else size;
    if capped < 1 then 1 else capped
  }

  /** The consecutive chunks of a list. */
  function Chunks<T>(rows: seq<T>, size: nat): seq<seq<T>>
    requires size >= 1
    decreases |rows|
  {
    if rows == [] then []
    else if |rows| <= size then [rows]
    else [rows[..size]] + Chunks(rows[size..], size)
  }

  function Concat<T>(chunks: seq<seq<T>>): seq<T> {
    if chunks == [] then [] else chunks[0] + Concat(chunks[1..])
  }

  /** Every row is in one chunk, in order; every chunk but the last is full, and the last is not empty. */
  lemma {:induction false} ChunksCover<T>(rows: seq<T>, size: nat)
    requires size >= 1
    ensures Concat(Chunks(rows, size)) == rows
    ensures forall c <- Chunks(rows, size) :: 1 <= |c| <= size
    ensures forall k :: 0 <= k < |Chunks(rows, size)| - 1 ==> |Chunks(rows, size)[k]| == size
    decreases |rows|
  {
    if |rows| > size {
      ChunksCover(rows[size..], size);
      var rest := Chunks(rows[size..], size);
      assert ([rows[..size]] + rest)[1..] == rest;
      assert rows == rows[..size] + rows[size..];
    } else if rows != [] {
      assert [rows][1..] == [];
    }
  }

  /** A batch is as large as asked for, or a thousand rows, unless its values are too many; then as large as they allow. */
  lemma BatchSizeLargest(asked: int, columns: nat)
    ensures var size, most := BatchSize(asked, columns), if asked <= 0 then 1000 else asked;
            && size <= most && (size == 1 || size * columns <= 65535)
            && (size == most || (size + 1) * columns > 65535)
  {
    if columns > 0 {
      Quotient(MAX_PARAMS, columns);
      if MAX_PARAMS / columns < (if asked <= 0 then 1000 else asked) {
        assert (MAX_PARAMS / columns + 1) * columns > MAX_PARAMS;
      } else {
        Times(if asked <= 0 then 1000 else asked, MAX_PARAMS / columns, columns);
      }
    }
  }

  // ----- The statement of one chunk -----

  function RowAssignments(columns: seq<Column>, values: seq<Value>): (r: seq<Assignment>)
    requires |values| == |columns|
    ensures |r| == |columns|
  {
    seq(|columns|, i requires 0 <= i < |columns| => SetValue(columns[i], values[i]))
  }

  function ChunkAssignments(columns: seq<Column>, chunk: seq<Record>): (r: seq<seq<Assignment>>)
    requires forall row <- chunk :: |row.values| == |columns|
    ensures |r| == |chunk|
  {
    seq(|chunk|, i requires 0 <= i < |chunk| => (assert chunk[i] in chunk; RowAssignments(columns, chunk[i].values)))
  }

  function ReturningColumns(target: Target, conflict: Option<Conflict>): seq<Column> {
    if conflict.Some? && conflict.value.doNothing then [] else target.autoIncrement
  }

  function ChunkBuilder(d: Dialect, target: Target, conflict: Option<Conflict>, chunk: seq<Record>): InsertBuilder
    requires forall row <- chunk :: |row.values| == |target.columns|
  {
    var returning := if d.returning then ReturningColumns(target, conflict) else [];
    match conflict
    case None => InsertBuilder(target.table, ChunkAssignments(target.columns, chunk), returning, [], false, [])
    case Some(c) =>
      InsertBuilder(target.table, ChunkAssignments(target.columns, chunk), returning, c.cols, c.doNothing, if c.doNothing then [] else c.doUpdate)
  }

  function AllValues(chunk: seq<Record>): seq<Value> {
    if chunk == [] then [] else chunk[0].values + AllValues(chunk[1..])
  }

  lemma {:induction false} RowArgs(columns: seq<Column>, values: seq<Value>)
    requires |values| == |columns|
    ensures GroupArgs(ValueGroups(RowAssignments(columns, values))) == values
    decreases |columns|
  {
    var groups := ValueGroups(RowAssignments(columns, values));
    if columns != [] {
      RowArgs(columns[1..], values[1..]);
      assert groups[1..] == ValueGroups(RowAssignments(columns[1..], values[1..]));
      assert groups[0] == [ValueOf(SetValue(columns[0], values[0]))];
      LayoutSingle(Dialect(true, true, true, true, true), ValueOf(SetValue(columns[0], values[0])), 0);
      assert LayoutArgs(groups[0]) == [values[0]];
    }
  }

  lemma RowLayoutArgs(d: Dialect, columns: seq<Column>, values: seq<Value>)
    requires |values| == |columns|
    ensures LayoutArgs(RowLayout(RowAssignments(columns, values))) == values
  {
    var groups := ValueGroups(RowAssignments(columns, values));
    RowArgs(columns, values);
    SeparatedArgs(d, groups);
    LayoutConcat(d, [Fixed([LParen])] + Separated(groups), [Fixed([RParen])], 0);
    LayoutConcat(d, [Fixed([LParen])], Separated(groups), 0);
    FixedAlone(d, [LParen], 0);
    FixedAlone(d, [RParen], 0);
    hide LayoutArgs, Separated, GroupArgs;
    assert [] + values + [] == values;
  }

  lemma {:induction false} RowsArgs(d: Dialect, columns: seq<Column>, chunk: seq<Record>)
    requires forall row <- chunk :: |row.values| == |columns|
    ensures GroupArgs(RowGroups(ChunkAssignments(columns, chunk))) == AllValues(chunk)
    decreases |chunk|
  {
    hide LayoutArgs, RowLayout;
    var groups := RowGroups(ChunkAssignments(columns, chunk));
    if chunk != [] {
      assert chunk[0] in chunk && forall row <- chunk[1..] :: row in chunk;
      RowsArgs(d, columns, chunk[1..]);
      assert groups[1..] == RowGroups(ChunkAssignments(columns, chunk[1..]));
      RowLayoutArgs(d, columns, chunk[0].values);
      assert groups[0] == RowLayout(RowAssignments(columns, chunk[0].values));
    }
  }

  /** What a conflict clause binds. */
  function ConflictArgs(conflict: Option<Conflict>): seq<Value> {
    if conflict.None? || conflict.value.cols == [] || conflict.value.doNothing then [] else GroupArgs(SetGroups(conflict.value.doUpdate))
  }

  lemma ConflictLayoutArgs(d: Dialect, target: Target, conflict: Option<Conflict>, chunk: seq<Record>)
    requires forall row <- chunk :: |row.values| == |target.columns|
    ensures LayoutArgs(ConflictLayout(d, ChunkBuilder(d, target, conflict, chunk))) == ConflictArgs(conflict)
  {
    var b := ChunkBuilder(d, target, conflict, chunk);
    var sets := SetLayout(b.conflictUpdate);
    SeparatedArgs(d, SetGroups(b.conflictUpdate));
    EmptyLayout(d, 0);
    var cols := [Word("ON CONFLICT"), LParen] + Join(NameTexts(b.conflictCols), Comma) + [RParen];
    var update, dup := [Word("DO UPDATE SET")], [Word("ON DUPLICATE KEY UPDATE")];
    LayoutConcat(d, [Fixed(cols)], [Fixed([Word("DO NOTHING")])], 0);
    LayoutConcat(d, [Fixed(cols)], [Fixed(update)] + sets, 0);
    LayoutConcat(d, [Fixed(update)], sets, 0);
    LayoutConcat(d, [Fixed(dup)], sets, 0);
    FixedAlone(d, cols, 0);
    FixedAlone(d, update, 0);
    FixedAlone(d, dup, 0);
    FixedAlone(d, [Word("DO NOTHING")], 0);
    hide LayoutArgs, LayoutText, LayoutError, LayoutInline, SetLayout, GroupArgs, SetGroups, Join, NameTexts;
  }

  /** A chunk's statement binds its rows' values, row after row, and then those of the conflict clause. */
  lemma StatementArgs(d: Dialect, target: Target, conflict: Option<Conflict>, chunk: seq<Record>)
    requires forall row <- chunk :: |row.values| == |target.columns|
    ensures LayoutArgs(InsertLayout(d, ChunkBuilder(d, target, conflict, chunk))) == AllValues(chunk) + ConflictArgs(conflict)
  {
    hide LayoutArgs, LayoutText, LayoutError, LayoutInline, RowsLayout, ConflictLayout, InsertHead, ListClause, GroupArgs, RowGroups;
    var b := ChunkBuilder(d, target, conflict, chunk);
    var head, rows, clause := [Fixed(InsertHead(d, b))], RowsLayout(b.rows), ConflictLayout(d, b);
    var tail := [Fixed(ListClause("RETURNING", ColumnTexts(b.returning)))];
    RowsLayoutArgs(d, target.columns, chunk);
    ConflictLayoutArgs(d, target, conflict, chunk);
    LayoutConcat(d, head + rows + clause, tail, 0);
    LayoutConcat(d, head + rows, clause, 0);
    LayoutConcat(d, head, rows, 0);
    FixedAlone(d, InsertHead(d, b), 0);
    FixedAlone(d, ListClause("RETURNING", ColumnTexts(b.returning)), 0);
    assert InsertLayout(d, b) == head + rows + clause + tail;
    assert [] + AllValues(chunk) + ConflictArgs(conflict) + [] == AllValues(chunk) + ConflictArgs(conflict);
  }

  lemma ChunkInsertAs(d: Dialect, target: Target, conflict: Option<Conflict>, chunk: seq<Record>) returns (m: InsertMeaning)
    requires chunk != [] && forall row <- chunk :: |row.values| == |target.columns|
    requires conflict.Some? ==> AllHaveText(conflict.value.doUpdate)
    ensures ReadInsert(LayoutInline(InsertLayout(d, ChunkBuilder(d, target, conflict, chunk)))) == Some(m)
    ensures InsertAs(d, ChunkBuilder(d, target, conflict, chunk), m)
  {
    var b := ChunkBuilder(d, target, conflict, chunk);
    forall row | row in b.rows
      ensures AllHaveText(row)
    {
      var i :| 0 <= i < |chunk| && row == b.rows[i];
    }
    InsertReads(d, b);
    hide ReadInsert, LayoutInline, InsertLayout, InsertAs;
    m := ReadInsert(LayoutInline(InsertLayout(d, b))).value;
  }

  /** An engine reads in a chunk's statement, for each row, each insert column with that row's own value in it. */
  lemma ChunkReads(d: Dialect, target: Target, conflict: Option<Conflict>, chunk: seq<Record>)
    requires chunk != [] && forall row <- chunk :: |row.values| == |target.columns|
    requires conflict.Some? ==> AllHaveText(conflict.value.doUpdate)
    ensures var m := ReadInsert(LayoutInline(InsertLayout(d, ChunkBuilder(d, target, conflict, chunk))));
            && m.Some? && m.value.table == target.table
            && |m.value.columns| == |target.columns| && (forall j :: 0 <= j < |target.columns| ==> m.value.columns[j] == target.columns[j].name)
            && |m.value.tuples| == |chunk|
            && forall i :: 0 <= i < |chunk| ==>
                 |m.value.tuples[i]| == |target.columns| && |chunk[i].values| == |target.columns|
                 && forall j :: 0 <= j < |target.columns| ==> m.value.tuples[i][j] == [Lit(chunk[i].values[j])]
  {
    var b := ChunkBuilder(d, target, conflict, chunk);
    var m := ChunkInsertAs(d, target, conflict, chunk);
    hide ReadInsert, LayoutInline, InsertLayout, ConflictAs, Filled;
    forall i, j | 0 <= i < |chunk| && 0 <= j < |target.columns|
      ensures chunk[i] in chunk && m.tuples[i][j] == [Lit(chunk[i].values[j])]
    {
      assert b.rows[i][j] == SetValue(target.columns[j], chunk[i].values[j]);
      assert Gives(b.rows[i][j], m.tuples[i][j]);
    }
  }

  /** And at its end the conflict clause asked for, and the generated columns wherever they can be returned. */
  lemma ChunkEndReads(d: Dialect, target: Target, conflict: Option<Conflict>, chunk: seq<Record>)
    requires chunk != [] && forall row <- chunk :: |row.values| == |target.columns|
    requires conflict.Some? ==> AllHaveText(conflict.value.doUpdate)
    ensures var m := ReadInsert(LayoutInline(InsertLayout(d, ChunkBuilder(d, target, conflict, chunk))));
            var ids := if d.returning && !(conflict.Some? && conflict.value.doNothing) then target.autoIncrement else [];
            && m.Some? && |m.value.returning| == |ids| && (forall i :: 0 <= i < |ids| ==> m.value.returning[i] == [Ident(ids[i])])
            && if conflict.None? || conflict.value.cols == [] then m.value.onConflict.Fails?
               else if conflict.value.doNothing then m.value.onConflict.Nothing?
               else m.value.onConflict.Updates? && SetsAs(m.value.onConflict.sets, conflict.value.doUpdate)
  {
    var m := ChunkInsertAs(d, target, conflict, chunk);
    hide ReadInsert, LayoutInline, InsertLayout, Gives, SetsAs;
  }

  lemma RowsLayoutArgs(d: Dialect, columns: seq<Column>, chunk: seq<Record>)
    requires forall row <- chunk :: |row.values| == |columns|
    ensures LayoutArgs(RowsLayout(ChunkAssignments(columns, chunk))) == AllValues(chunk)
  {
    RowsArgs(d, columns, chunk);
    SeparatedArgs(d, RowGroups(ChunkAssignments(columns, chunk)));
  }

  lemma {:induction false} AllValuesCount(chunk: seq<Record>, columns: nat)
    requires forall row <- chunk :: |row.values| == columns
    ensures |AllValues(chunk)| == |chunk| * columns
    decreases |chunk|
  {
    if chunk != [] {
      assert chunk[0] in chunk && forall row <- chunk[1..] :: row in chunk;
      var n: nat, rest := |chunk| - 1, AllValues(chunk[1..]);
      AllValuesCount(chunk[1..], columns);
      OneMore(n, columns);
      hide AllValues;
      assert |chunk[0].values + rest| == columns + n * columns;
    }
  }

  lemma OneMore(n: nat, c: nat)
    ensures (n + 1) * c == c + n * c
  {
  }

  /** No chunk binds too much exactly when one row does not: at most 65535 insert columns. */
  lemma ParamsBounded(columns: nat, asked: int, n: nat)
    requires 1 <= n <= BatchSize(asked, columns)
    ensures columns <= MAX_PARAMS <==> n * columns <= MAX_PARAMS
  {
    if columns == 0 {
    } else if columns <= MAX_PARAMS {
      Quotient(MAX_PARAMS, columns);
      Times(n, MAX_PARAMS / columns, columns);
    } else {
      Times(1, n, columns);
    }
  }

  lemma Times(a: nat, b: nat, c: nat)
    requires a <= b
    ensures a * c <= b * c
  {
  }

  lemma Quotient(n: nat, d: nat)
    requires 1 <= d
    ensures (n / d) * d <= n < (n / d + 1) * d && (d <= n ==> n / d >= 1)
  {
  }

  /** The rows of the longest chunk, which is the first. */
  function LongestChunk(rows: nat, asked: int, columns: nat): nat {
    if rows < BatchSize(asked, columns) then rows else BatchSize(asked, columns)
  }

  /**
   Every statement binds at most 65535 values if and only if the longest chunk's do, those
   of the conflict clause included. Without conflict updates that is so if and only if a
   single row's do.
   */
  lemma EveryStatementFits(d: Dialect, target: Target, conflict: Option<Conflict>, rows: seq<Record>, asked: int)
    requires rows != [] && forall row <- rows :: |row.values| == |target.columns|
    ensures forall c, row :: c in Chunks(rows, BatchSize(asked, |target.columns|)) && row in c ==> |row.values| == |target.columns|
    ensures LongestChunk(|rows|, asked, |target.columns|) * |target.columns| + |ConflictArgs(conflict)| <= MAX_PARAMS <==>
      forall c <- Chunks(rows, BatchSize(asked, |target.columns|)) ::
        |LayoutArgs(InsertLayout(d, ChunkBuilder(d, target, conflict, c)))| <= MAX_PARAMS
    ensures ConflictArgs(conflict) == [] ==>
      (LongestChunk(|rows|, asked, |target.columns|) * |target.columns| <= MAX_PARAMS <==> |target.columns| <= MAX_PARAMS)
  {
    hide LayoutArgs, InsertLayout, ChunkBuilder, BatchSize, ConflictArgs;
    var columns := |target.columns|;
    var size, longest := BatchSize(asked, columns), LongestChunk(|rows|, asked, columns);
    ChunksCover(rows, size);
    ChunkRows(rows, size);
    ParamsBounded(columns, asked, longest);
    forall c | c in Chunks(rows, size)
      ensures |c| <= longest && |LayoutArgs(InsertLayout(d, ChunkBuilder(d, target, conflict, c)))| == |c| * columns + |ConflictArgs(conflict)|
      ensures |c| * columns <= longest * columns
    {
      assert forall row <- c :: row in rows;
      StatementArgs(d, target, conflict, c);
      AllValuesCount(c, columns);
      Times(|c|, longest, columns);
    }
    assert Chunks(rows, size)[0] in Chunks(rows, size) && |Chunks(rows, size)[0]| == longest;
  }

  /** A full chunk of one-column rows leaves no room for the value of a conflict update. */
  lemma UpdatesCanExceed(d: Dialect, target: Target, conflict: Option<Conflict>, rows: seq<Record>, asked: int)
    requires |rows| >= MAX_PARAMS && asked >= MAX_PARAMS && |target.columns| == 1 && forall row <- rows :: |row.values| == 1
    requires ConflictArgs(conflict) != []
    ensures forall c, row :: c in Chunks(rows, BatchSize(asked, 1)) && row in c ==> |row.values| == |target.columns|
    ensures exists c <- Chunks(rows, BatchSize(asked, 1)) ::
      |LayoutArgs(InsertLayout(d, ChunkBuilder(d, target, conflict, c)))| > MAX_PARAMS
  {
    hide LayoutArgs, InsertLayout, ChunkBuilder, ConflictArgs;
    assert LongestChunk(|rows|, asked, 1) == MAX_PARAMS;
    EveryStatementFits(d, target, conflict, rows, asked);
  }

  lemma {:induction false} ChunkRows<T>(rows: seq<T>, size: nat)
    requires size >= 1
    ensures forall c, row :: c in Chunks(rows, size) && row in c ==> row in rows
    decreases |rows|
  {
    if |rows| > size {
      ChunkRows(rows[size..], size);
    }
  }

  lemma ChunkWidths(rows: seq<Record>, size: nat, k: nat, columns: nat)
    requires size >= 1 && k < |Chunks(rows, size)| && forall row <- rows :: |row.values| == columns
    ensures forall row <- Chunks(rows, size)[k] :: |row.values| == columns
  {
    ChunkRows(rows, size);
    assert Chunks(rows, size)[k] in Chunks(rows, size);
  }

  // ----- The code -----

  datatype Mode = NoIds | FromReturning | FromFirstID

  function IdMode(d: Dialect, target: Target, conflict: Option<Conflict>): Mode {
    if ReturningColumns(target, conflict) == [] then NoIds else if d.returning then FromReturning else FromFirstID
  }

  /** A chunk's rows with their generated ids: the returned ones in order, or consecutive from the first. */
  function WithIds(mode: Mode, chunk: seq<Record>, reply: Reply): (r: seq<Record>)
    ensures |r| == |chunk|
  {
    seq(|chunk|, i requires 0 <= i < |chunk| => chunk[i].(id := IdAt(mode, chunk[i].id, reply, i)))
  }

  function IdAt(mode: Mode, id: Option<int>, reply: Reply, i: nat): Option<int> {
    if reply.Refused? || mode.NoIds? then id
    else if mode.FromFirstID? then Some(reply.firstID + i)
    else if i < |reply.returned| then Some(reply.returned[i])
    else id
  }

  predicate Accepted(mode: Mode, chunk: seq<Record>, reply: Reply) {
    reply.Inserted? && (mode.FromReturning? ==> |reply.returned| >= |chunk|)
  }

  /** The rows of the chunks from the kth on, each chunk given the ids its own statement generated. */
  function Backfilled(mode: Mode, chunks: seq<seq<Record>>, k: nat, db: nat -> Reply): seq<Record>
    decreases |chunks|
  {
    if chunks == [] then [] else WithIds(mode, chunks[0], db(k)) + Backfilled(mode, chunks[1..], k + 1, db)
  }

  /** Statement k of a call is the INSERT of its kth chunk. */
  ghost predicate Sends(d: Dialect, target: Target, conflict: Option<Conflict>, chunks: seq<seq<Record>>, sent: seq<Statement>) {
    && |sent| <= |chunks|
    && forall k :: 0 <= k < |sent| ==>
         && (forall row <- chunks[k] :: |row.values| == |target.columns|)
         && Renders(d, InsertLayout(d, ChunkBuilder(d, target, conflict, chunks[k])), Success(sent[k]))
  }

  /** The call's result: every statement accepted, and every row with the id its own statement gave it. */
  ghost predicate Complete(mode: Mode, rows: seq<Record>, chunks: seq<seq<Record>>, db: nat -> Reply) {
    (forall i :: 0 <= i < |chunks| ==> Accepted(mode, chunks[i], db(i))) && rows == Backfilled(mode, chunks, 0, db)
  }

  /** What n statements have made of the rows: those of the chunks sent have the ids that came back, the others are as they were. */
  ghost predicate Partial(mode: Mode, rows: seq<Record>, chunks: seq<seq<Record>>, n: nat, db: nat -> Reply) {
    n <= |chunks| && rows == Backfilled(mode, chunks[..n], 0, db) + Concat(chunks[n..])
  }

  /** Why a call ended with n statements sent: all were accepted up to the one that err is about. */
  ghost predicate Explains(mode: Mode, chunks: seq<seq<Record>>, n: nat, db: nat -> Reply, err: CreateError) {
    && n <= |chunks|
    && match err
       case RenderFailed(_) => forall i :: 0 <= i < n ==> Accepted(mode, chunks[i], db(i))
       case DatabaseFailed => n > 0 && db(n - 1).Refused? && forall i :: 0 <= i < n - 1 ==> Accepted(mode, chunks[i], db(i))
       case FewerRows =>
         && n > 0 && mode.FromReturning? && db(n - 1).Inserted? && |db(n - 1).returned| < |chunks[n - 1]|
         && forall i :: 0 <= i < n - 1 ==> Accepted(mode, chunks[i], db(i))
       case ZeroCompositeKey => n == 0
  }

  /** The loop with k chunks, the rows up to start, behind it. */
  ghost predicate Underway(mode: Mode, rows: seq<Record>, before: seq<Record>, size: nat, start: nat, k: nat, db: nat -> Reply) {
    && size >= 1 && start <= |before| == |rows|
    && var chunks := Chunks(before, size);
       && k <= |chunks| && chunks[k..] == Chunks(before[start..], size)
       && (forall i :: 0 <= i < k ==> Accepted(mode, chunks[i], db(i)))
       && rows[start..] == before[start..] && rows[..start] == Backfilled(mode, chunks[..k], 0, db)
  }

  lemma UnderwayStart(mode: Mode, before: seq<Record>, size: nat, db: nat -> Reply)
    requires size >= 1
    ensures Underway(mode, before, before, size, 0, 0, db)
  {
    var chunks := Chunks(before, size);
    assert before[0..] == before && chunks[0..] == chunks && chunks[..0] == [];
  }

  /** The next chunk, and what the rows come to once it has been inserted. */
  lemma UnderwayNext(mode: Mode, rows: seq<Record>, before: seq<Record>, size: nat, start: nat, k: nat, end: nat, db: nat -> Reply)
    requires Underway(mode, rows, before, size, start, k, db) && start < |before|
    requires end == if start + size > |before| then |before| else start + size
    ensures k < |Chunks(before, size)| && Chunks(before, size)[k] == rows[start..end] == before[start..end]
    ensures Accepted(mode, before[start..end], db(k)) ==>
      Underway(mode, rows[..start] + WithIds(mode, before[start..end], db(k)) + rows[end..], before, size, end, k + 1, db)
  {
    hide WithIds, Accepted, Backfilled, Chunks;
    var chunks := Chunks(before, size);
    NextChunk(before, start, end, size);
    FirstOf(chunks, k, before[start..end], Chunks(before[end..], size));
    BackfilledMore(mode, chunks, k, db);
    Spliced(rows, before, start, end, WithIds(mode, before[start..end], db(k)));
  }

  lemma UnderwayStops(mode: Mode, rows: seq<Record>, before: seq<Record>, size: nat, start: nat, k: nat, db: nat -> Reply)
    requires Underway(mode, rows, before, size, start, k, db)
    ensures Partial(mode, rows, Chunks(before, size), k, db)
    ensures forall i :: 0 <= i < k ==> Accepted(mode, Chunks(before, size)[i], db(i))
  {
    hide Backfilled, Chunks, Accepted;
    ChunksCover(before[start..], size);
    assert rows == rows[..start] + rows[start..];
  }

  /** The chunk at which the call ends, with whatever ids have come back for it. */
  lemma UnderwayBreaks(mode: Mode, rows: seq<Record>, before: seq<Record>, size: nat, start: nat, k: nat, end: nat, db: nat -> Reply)
    requires Underway(mode, rows, before, size, start, k, db) && start < |before|
    requires end == if start + size > |before| then |before| else start + size
    ensures Partial(mode, rows[..start] + WithIds(mode, before[start..end], db(k)) + rows[end..], Chunks(before, size), k + 1, db)
    ensures forall i :: 0 <= i < k ==> Accepted(mode, Chunks(before, size)[i], db(i))
  {
    hide WithIds, Accepted, Backfilled, Chunks;
    var chunks := Chunks(before, size);
    NextChunk(before, start, end, size);
    FirstOf(chunks, k, before[start..end], Chunks(before[end..], size));
    BackfilledMore(mode, chunks, k, db);
    Spliced(rows, before, start, end, WithIds(mode, before[start..end], db(k)));
    ChunksCover(before[end..], size);
    assert rows[end..] == before[end..];
  }

  /** A chunk that could not be rendered: nothing came of it. */
  lemma StoppedUnsent(mode: Mode, rows: seq<Record>, before: seq<Record>, size: nat, start: nat, k: nat, db: nat -> Reply, error: RenderError)
    requires Underway(mode, rows, before, size, start, k, db)
    ensures Partial(mode, rows, Chunks(before, size), k, db) && Explains(mode, Chunks(before, size), k, db, RenderFailed(error))
  {
    UnderwayStops(mode, rows, before, size, start, k, db);
    hide Underway, Partial, Accepted;
  }

  lemma StoppedRefused(mode: Mode, rows: seq<Record>, before: seq<Record>, size: nat, start: nat, k: nat, end: nat, db: nat -> Reply)
    requires Underway(mode, rows, before, size, start, k, db) && start < |before| && db(k).Refused?
    requires end == if start + size > |before| then |before| else start + size
    ensures Partial(mode, rows, Chunks(before, size), k + 1, db) && Explains(mode, Chunks(before, size), k + 1, db, DatabaseFailed)
  {
    UnderwayBreaks(mode, rows, before, size, start, k, end, db);
    assert WithIds(mode, before[start..end], db(k)) == before[start..end];
    assert rows[..start] + before[start..end] + rows[end..] == rows by {
      assert rows[start..] == before[start..];
      Spliced(rows, before, start, end, before[start..end]);
    }
    hide Underway, Partial, Accepted, WithIds;
  }

  lemma StoppedShort(mode: Mode, rows: seq<Record>, before: seq<Record>, size: nat, start: nat, k: nat, end: nat, db: nat -> Reply)
    requires Underway(mode, rows, before, size, start, k, db) && start < |before|
    requires end == if start + size > |before| then |before| else start + size
    requires db(k).Inserted? && !Accepted(mode, before[start..end], db(k))
    ensures Partial(mode, rows[..start] + WithIds(mode, before[start..end], db(k)) + rows[end..], Chunks(before, size), k + 1, db)
    ensures Explains(mode, Chunks(before, size), k + 1, db, FewerRows)
  {
    UnderwayBreaks(mode, rows, before, size, start, k, end, db);
    UnderwayNext(mode, rows, before, size, start, k, end, db);
    hide Underway, Partial, WithIds;
  }

  lemma ZeroExplained(mode: Mode, chunks: seq<seq<Record>>, db: nat -> Reply)
    ensures Explains(mode, chunks, 0, db, ZeroCompositeKey)
  {
  }

  lemma FirstOf<T>(xs: seq<T>, k: nat, x: T, rest: seq<T>)
    requires k <= |xs| && xs[k..] == [x] + rest
    ensures k < |xs| && xs[k] == x && xs[k + 1..] == rest
  {
    assert |xs[k..]| == 1 + |rest|;
    assert xs[k] == xs[k..][0] && xs[k + 1..] == xs[k..][1..];
    assert ([x] + rest)[1..] == rest;
  }

  lemma Spliced<T>(rows: seq<T>, before: seq<T>, start: nat, end: nat, mid: seq<T>)
    requires start <= end <= |rows| == |before| && rows[start..] == before[start..] && |mid| == end - start
    ensures rows[start..end] == before[start..end]
    ensures var after := rows[..start] + mid + rows[end..];
            |after| == |before| && after[end..] == before[end..] && after[..end] == rows[..start] + mid
  {
    assert rows[start..end] == rows[start..][..end - start] && before[start..end] == before[start..][..end - start];
    assert rows[end..] == rows[start..][end - start..] && before[end..] == before[start..][end - start..];
  }

  lemma UnderwayEnd(mode: Mode, rows: seq<Record>, before: seq<Record>, size: nat, k: nat, db: nat -> Reply)
    requires Underway(mode, rows, before, size, |before|, k, db)
    ensures k == |Chunks(before, size)| && Complete(mode, rows, Chunks(before, size), db)
  {
    assert before[|before|..] == [] && rows[..|before|] == rows;
    assert Chunks(before, size)[..k] == Chunks(before, size);
  }

  /** The look at every row before anything is sent. */
  method AnyKeyUnset(target: Target, rows: array<Record>) returns (unset: bool)
    ensures unset <==> target.compositeKey && exists i :: 0 <= i < rows.Length && rows[i].zeroKey
  {
    for i := 0 to rows.Length
      invariant forall k :: 0 <= k < i ==> !(target.compositeKey && rows[k].zeroKey)
    {
      if target.compositeKey && rows[i].zeroKey {
        return true;
      }
    }
    return false;
  }

  method CreateAll(d: Dialect, target: Target, rows: array<Record>, asked: int, conflict: Option<Conflict>, db: nat -> Reply)
    returns (err: Option<CreateError>, sent: seq<Statement>)
    requires forall i :: 0 <= i < rows.Length ==> |rows[i].values| == |target.columns|
    modifies rows
    ensures Sends(d, target, conflict, Chunks(old(rows[..]), BatchSize(asked, |target.columns|)), sent)
    ensures err == Some(ZeroCompositeKey) <==> target.compositeKey && exists i :: 0 <= i < rows.Length && old(rows[i]).zeroKey
    ensures var chunks := Chunks(old(rows[..]), BatchSize(asked, |target.columns|));
            && Partial(IdMode(d, target, conflict), rows[..], chunks, |sent|, db)
            && (err.Some? ==> Explains(IdMode(d, target, conflict), chunks, |sent|, db, err.value))
    ensures err.None? ==>
      var chunks := Chunks(old(rows[..]), BatchSize(asked, |target.columns|));
      |sent| == |chunks| && Complete(IdMode(d, target, conflict), rows[..], chunks, db)
  {
    hide Renders, InsertLayout, ChunkBuilder, BatchSize, IdMode, WithIds, Backfilled, Underway, Complete, Partial, Explains, Accepted;
    hide InsertFits, ReadsInsert, LayoutCountsUp, IdsGiven;
    err, sent := None, [];
    var batchSize := BatchSize(asked, |target.columns|);
    var mode := IdMode(d, target, conflict);
    ghost var before := rows[..];
    UnderwayStart(mode, before, batchSize, db);
    UnderwayStops(mode, before, before, batchSize, 0, 0, db);
    if rows.Length == 0 {
      UnderwayEnd(mode, before, before, batchSize, 0, db);
      return;
    }
    ghost var chunks := Chunks(before, batchSize);
    assert forall row <- before :: |row.values| == |target.columns|;
    var unset := AnyKeyUnset(target, rows);
    if unset {
      ZeroExplained(mode, chunks, db);
      return Some(ZeroCompositeKey), [];
    }
    hide Chunks, Sends;
    StartSends(d, target, conflict, chunks);
    var start := 0;
    while start < rows.Length
      invariant 0 <= start <= rows.Length && err.None?
      invariant Sends(d, target, conflict, chunks, sent)
      invariant Underway(mode, rows[..], before, batchSize, start, |sent|, db)
      decreases rows.Length - start
    {
      var end := start + batchSize;
      if end > rows.Length {
        end := rows.Length;
      }
      var chunk := rows[start..end];
      ghost var was, k := rows[..], |sent|;
      UnderwayNext(mode, was, before, batchSize, start, k, end, db);
      ChunkWidths(before, batchSize, k, |target.columns|);
      var rendered := RenderInsert(d, ChunkBuilder(d, target, conflict, chunk));
      NeverUnsupported(d, target, conflict, chunk);
      if rendered.Failure? {
        StoppedUnsent(mode, was, before, batchSize, start, k, db, rendered.error);
        return Some(RenderFailed(rendered.error)), sent;
      }
      MoreSends(d, target, conflict, chunks, sent, rendered.value);
      sent := sent + [rendered.value];
      var reply := db(|sent| - 1);
      if reply.Refused? {
        StoppedRefused(mode, was, before, batchSize, start, k, end, db);
        return Some(DatabaseFailed), sent;
      }
      assert rows[..start] == was[..start] && rows[start..end] == was[start..end] && rows[end..] == was[end..];
      var complete := Backfill(rows, start, end, mode, reply);
      assert rows[..] == was[..start] + WithIds(mode, before[start..end], reply) + was[end..];
      if !complete {
        StoppedShort(mode, was, before, batchSize, start, k, end, db);
        return Some(FewerRows), sent;
      }
      start := end;
    }
    UnderwayStops(mode, rows[..], before, batchSize, start, |sent|, db);
    UnderwayEnd(mode, rows[..], before, batchSize, |sent|, db);
  }

  lemma StartSends(d: Dialect, target: Target, conflict: Option<Conflict>, chunks: seq<seq<Record>>)
    ensures Sends(d, target, conflict, chunks, [])
  {
  }

  lemma MoreSends(d: Dialect, target: Target, conflict: Option<Conflict>, chunks: seq<seq<Record>>, sent: seq<Statement>, next: Statement)
    requires Sends(d, target, conflict, chunks, sent) && |sent| < |chunks| && forall row <- chunks[|sent|] :: |row.values| == |target.columns|
    requires Renders(d, InsertLayout(d, ChunkBuilder(d, target, conflict, chunks[|sent|])), Success(next))
    ensures Sends(d, target, conflict, chunks, sent + [next])
  {
    hide Renders, InsertLayout, ChunkBuilder;
  }

  /** Row j from start on has the (j - start)th id, if there is one; the rows outside, and everything else, are as they were. */
  ghost predicate IdsGiven(before: seq<Record>, after: seq<Record>, start: nat, end: nat, mode: Mode, reply: Reply)
    requires reply.Inserted? && start <= end <= |before| == |after|
  {
    && (forall j :: 0 <= j < |before| && !(start <= j < end) ==> after[j] == before[j])
    && forall j :: start <= j < end ==>
         after[j] == match mode
                     case NoIds => before[j]
                     case FromFirstID => before[j].(id := Some(reply.firstID + (j - start)))
                     case FromReturning => if j - start < |reply.returned| then before[j].(id := Some(reply.returned[j - start])) else before[j]
  }

  /** Writes the generated ids of one statement back onto its rows, as far as there are any. */
  method Backfill(rows: array<Record>, start: nat, end: nat, mode: Mode, reply: Reply) returns (complete: bool)
    requires start <= end <= rows.Length && reply.Inserted?
    modifies rows
    ensures rows[..] == old(rows[..start]) + WithIds(mode, old(rows[start..end]), reply) + old(rows[end..])
    ensures complete <==> Accepted(mode, old(rows[start..end]), reply)
    ensures complete <==> (mode.FromReturning? ==> |reply.returned| >= end - start)
    ensures IdsGiven(old(rows[..]), rows[..], start, end, mode, reply)
  {
    ghost var before := rows[..];
    ghost var after := before[..start] + WithIds(mode, before[start..end], reply) + before[end..];
    complete := true;
    if mode.NoIds? {
      assert WithIds(mode, before[start..end], reply) == before[start..end];
      assert rows[..] == after;
      return;
    }
    for i := start to end
      invariant forall j :: 0 <= j < rows.Length ==> rows[j] == if j < i then after[j] else before[j]
      invariant mode.FromReturning? ==> i - start <= |reply.returned|
    {
      if mode.FromReturning? {
        if i - start >= |reply.returned| {
          assert rows[..] == after;
          return false;
        }
        rows[i] := rows[i].(id := Some(reply.returned[i - start]));
      } else {
        rows[i] := rows[i].(id := Some(reply.firstID + (i - start)));
      }
    }
    assert rows[..] == after;
  }

  lemma NextChunk(rows: seq<Record>, start: nat, end: nat, size: nat)
    requires start < |rows| && size >= 1 && end == if start + size > |rows| then |rows| else start + size
    ensures Chunks(rows[start..], size) == [rows[start..end]] + Chunks(rows[end..], size)
  {
    var rest := rows[start..];
    if |rest| <= size {
      assert rest == rows[start..end] && rows[end..] == [];
    } else {
      assert rest[..size] == rows[start..end] && rest[size..] == rows[end..];
    }
  }

  /** RETURNING is only asked of a dialect that has it. */
  lemma NeverUnsupported(d: Dialect, target: Target, conflict: Option<Conflict>, chunk: seq<Record>)
    requires forall row <- chunk :: |row.values| == |target.columns|
    ensures ChunkBuilder(d, target, conflict, chunk).returning == [] || d.returning
  {
  }

  lemma {:induction false} BackfilledSnoc(mode: Mode, chunks: seq<seq<Record>>, last: seq<Record>, k: nat, db: nat -> Reply)
    ensures Backfilled(mode, chunks + [last], k, db) == Backfilled(mode, chunks, k, db) + WithIds(mode, last, db(k + |chunks|))
    decreases |chunks|
  {
    hide WithIds;
    if chunks == [] {
      assert chunks + [last] == [last] && [last][1..] == [];
      assert Backfilled(mode, [last], k, db) == WithIds(mode, last, db(k)) + Backfilled(mode, [], k + 1, db);
    } else {
      var rest := chunks[1..];
      assert (chunks + [last])[1..] == rest + [last];
      BackfilledSnoc(mode, rest, last, k + 1, db);
      SeqAssociates(WithIds(mode, chunks[0], db(k)), Backfilled(mode, rest, k + 1, db), WithIds(mode, last, db(k + |chunks|)));
    }
  }

  lemma BackfilledMore(mode: Mode, chunks: seq<seq<Record>>, k: nat, db: nat -> Reply)
    requires k < |chunks|
    ensures Backfilled(mode, chunks[..k + 1], 0, db) == Backfilled(mode, chunks[..k], 0, db) + WithIds(mode, chunks[k], db(k))
  {
    assert chunks[..k + 1] == chunks[..k] + [chunks[k]];
    BackfilledSnoc(mode, chunks[..k], chunks[k], 0, db);
  }

  /**
   In a complete call row i of the kth chunk has the ith id its own statement returned, or
   where there is no RETURNING the id that many after the statement's first; and the id it
   had where none is asked for. Nothing else of a row changes.
   */
  lemma IdsComeBack(d: Dialect, target: Target, conflict: Option<Conflict>, rows: seq<Record>, chunks: seq<seq<Record>>, db: nat -> Reply, k: nat, i: nat)
    requires Complete(IdMode(d, target, conflict), rows, chunks, db) && k < |chunks| && i < |chunks[k]|
    ensures var at := |Concat(chunks[..k])| + i;
            && at < |rows| && rows[at] == chunks[k][i].(id := rows[at].id)
            && if target.autoIncrement == [] || (conflict.Some? && conflict.value.doNothing) then rows[at].id == chunks[k][i].id
               else if d.returning then i < |db(k).returned| && rows[at].id == Some(db(k).returned[i])
               else rows[at].id == Some(db(k).firstID + i)
  {
    var mode := IdMode(d, target, conflict);
    BackfilledAt(mode, chunks, 0, db, k, i);
    assert Accepted(mode, chunks[k], db(k));
    hide Backfilled, Concat;
  }

  lemma {:induction false} BackfilledAt(mode: Mode, chunks: seq<seq<Record>>, first: nat, db: nat -> Reply, k: nat, i: nat)
    requires k < |chunks| && i < |chunks[k]|
    ensures var rows := Backfilled(mode, chunks, first, db);
            var at := |Concat(chunks[..k])| + i;
            at < |rows| && rows[at] == WithIds(mode, chunks[k], db(first + k))[i]
    decreases |chunks|
  {
    hide WithIds;
    if k == 0 {
      assert chunks[..0] == [];
    } else {
      BackfilledAt(mode, chunks[1..], first + 1, db, k - 1, i);
      assert chunks[..k][0] == chunks[0] && chunks[..k][1..] == chunks[1..][..k - 1];
    }
  }
}
