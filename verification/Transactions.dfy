/** Nested transactions (pack/tx.go): a tree of Tx calls as statements on one connection. */
module Transactions {
  import opened Results

  // The calls become BEGIN, SAVEPOINT, RELEASE, ROLLBACK TO, COMMIT and ROLLBACK. Names come from one counter shared by
  // the whole tree, and a savepoint that was rolled back to stays on the database's stack. The database side is the SQL
  // standard's: a stack of named snapshots, searched from the top.

  type Table = map<string, int>

  datatype Write = Put(key: string, value: int) | Remove(key: string)

  function Apply(t: Table, w: Write): Table {
    match w
    case Put(k, v) => t[k := v]
    case Remove(k) => t - {k}
  }

  function ApplyAll(t: Table, ws: seq<Write>): Table
    decreases |ws|
  {
    if ws == [] then t else ApplyAll(Apply(t, ws[0]), ws[1..])
  }

  lemma {:induction false} ApplyConcat(t: Table, a: seq<Write>, b: seq<Write>)
    ensures ApplyAll(t, a + b) == ApplyAll(ApplyAll(t, a), b)
    decreases |a|
  {
    if a == [] {
      assert a + b == b;
    } else {
      ApplyConcat(Apply(t, a[0]), a[1..], b);
      assert (a + b)[1..] == a[1..] + b;
    }
  }

  /** How the engine behaves where engines differ. */
  datatype Engine = Engine(
    savepoints: bool,  // dialect.SupportsSavepoints
    aborts: bool       // a failed statement blocks the transaction until a rollback, as in Postgres
  )

  // ----- Programs: what the callbacks do -----

  datatype End = ReturnNil | ReturnError | Panic

  datatype Step =
    /** A statement the engine accepts or rejects; on an error the callback goes on or returns it. */
    | Exec(w: Write, accepted: bool, swallow: bool)
    /** A nested Tx; its error or panic is caught by the callback, or ends it. */
    | Call(body: Program, catchError: bool, catchPanic: bool)

  datatype Program = Program(steps: seq<Step>, end: End)

  datatype Outcome = Done | Failed | Panicked

  /** What a callback does next when a nested Tx comes back with o. */
  function Continue(s: Step, o: Outcome): Option<End>
    requires s.Call?
  {
    match o
    case Done => None
    case Failed => if s.catchError then None else Some(ReturnError)
    case Panicked => if s.catchPanic then None else Some(Panic)
  }

  // ----- The connection -----

  datatype Savepoint = Savepoint(name: nat, saved: Table)

  datatype Connection = Connection(
    committed: Table,
    open: bool,
    table: Table,
    aborted: bool,
    stack: seq<Savepoint>,
    counter: nat,        // savepointSeq
    missing: nat         // how many statements have named a savepoint that does not exist
  )

  ghost predicate Topmost(stack: seq<Savepoint>, name: nat, i: nat) {
    i < |stack| && stack[i].name == name && forall j :: i < j < |stack| ==> stack[j].name != name
  }

  /** The topmost savepoint of that name, counted from the bottom. */
  function Find(stack: seq<Savepoint>, name: nat): (r: Option<nat>)
    ensures r.Some? ==> Topmost(stack, name, r.value)
    ensures r.None? ==> forall sp <- stack :: sp.name != name
  {
    if stack == [] then None
    else if stack[|stack| - 1].name == name then Some(|stack| - 1)
    else Find(stack[..|stack| - 1], name)
  }

  function Release(c: Connection, name: nat): (Connection, bool) {
    if c.aborted then (c, false)
    else
      match Find(c.stack, name)
      case None => (c.(missing := c.missing + 1), false)
      case Some(i) => (c.(stack := c.stack[..i]), true)
  }

  function RollbackTo(c: Connection, name: nat): (Connection, bool) {
    match Find(c.stack, name)
    case None => (c.(missing := c.missing + 1), false)
    case Some(i) => (c.(stack := c.stack[..i + 1], table := c.stack[i].saved, aborted := false), true)
  }

  function CommitRoot(c: Connection): (Connection, bool) {
    // COMMIT of a blocked transaction is a rollback, and the driver reports it
    if c.aborted then (RollbackRoot(c), false)
    else (c.(committed := c.table, open := false, stack := []), true)
  }

  function RollbackRoot(c: Connection): Connection {
    c.(table := c.committed, open := false, stack := [], aborted := false)
  }

  function ExecOn(e: Engine, c: Connection, w: Write, accepted: bool): (Connection, bool) {
    if c.aborted then (c, false)
    else if accepted then (c.(table := Apply(c.table, w)), true)
    else (c.(aborted := e.aborts), false)
  }

  // ----- What Tx does, statement by statement -----

  function RunTx(e: Engine, c: Connection, p: Program): (Connection, Outcome)
    decreases p, 1
  {
    if !c.open then
      var begun := c.(open := true, table := c.committed, aborted := false, stack := [], counter := 0);
      var (after, end) := RunSteps(e, begun, p.steps, p.end);
      match end
      case ReturnNil => var (r, ok) := CommitRoot(after); (r, if ok then Done else Failed)
      case ReturnError => (RollbackRoot(after), Failed)
      case Panic => (RollbackRoot(after), Panicked)
    else if !e.savepoints then (c, Failed)
    else
      var name := c.counter + 1;
      var named := c.(counter := name);
      if c.aborted then (named, Failed)   // SAVEPOINT itself is refused
      else
        var marked := named.(stack := c.stack + [Savepoint(name, c.table)]);
        var (after, end) := RunSteps(e, marked, p.steps, p.end);
        match end
        case ReturnNil => var (r, ok) := Release(after, name); (r, if ok then Done else Failed)
        case ReturnError => (RollbackTo(after, name).0, Failed)
        case Panic => (RollbackTo(after, name).0, Panicked)
  }

  function RunSteps(e: Engine, c: Connection, steps: seq<Step>, end: End): (Connection, End)
    decreases steps, 0
  {
    if steps == [] then (c, end)
    else
      match steps[0]
      case Exec(w, accepted, swallow) =>
        var (next, ok) := ExecOn(e, c, w, accepted);
        if ok || swallow then RunSteps(e, next, steps[1..], end) else (next, ReturnError)
      case Call(body, _, _) =>
        assert steps decreases to steps[0];
        var (next, o) := RunTx(e, c, body);
        match Continue(steps[0], o)
        case None => RunSteps(e, next, steps[1..], end)
        case Some(ended) => (next, ended)
  }

  // ----- The reference: all-or-nothing trees, with no statement, stack or name in it -----

  /** The writes a subtree leaves behind, how it ended, and whether the transaction is blocked. */
  datatype Effect<T> = Effect(kept: seq<Write>, result: T, blocked: bool)

  function TreeTx(e: Engine, p: Program, nested: bool, blocked: bool): Effect<Outcome>
    decreases p, 1
  {
    if nested && (!e.savepoints || blocked) then Effect([], Failed, blocked)
    else
      var body := TreeSteps(e, p.steps, p.end, false);
      match body.result
      case ReturnNil =>
        if body.blocked then Effect([], Failed, nested) else Effect(body.kept, Done, false)
      case ReturnError => Effect([], Failed, false)
      case Panic => Effect([], Panicked, false)
  }

  function TreeSteps(e: Engine, steps: seq<Step>, end: End, blocked: bool): Effect<End>
    decreases steps, 0
  {
    if steps == [] then Effect([], end, blocked)
    else
      match steps[0]
      case Exec(w, accepted, swallow) =>
        var ok := !blocked && accepted;
        var blockedNow := blocked || (!accepted && e.aborts);
        if ok || swallow then
          var rest := TreeSteps(e, steps[1..], end, blockedNow);
          rest.(kept := (if ok then [w] else []) + rest.kept)
        else Effect([], ReturnError, blockedNow)
      case Call(body, _, _) =>
        assert steps decreases to steps[0];
        var sub := TreeTx(e, body, true, blocked);
        match Continue(steps[0], sub.result)
        case None =>
          var rest := TreeSteps(e, steps[1..], end, sub.blocked);
          rest.(kept := sub.kept + rest.kept)
        case Some(ended) => Effect(sub.kept, ended, sub.blocked)
  }

  // ----- Refinement -----

  /** Names on the stack are distinct and have all been drawn from the counter. */
  ghost predicate Fresh(stack: seq<Savepoint>, counter: nat) {
    && (forall i :: 0 <= i < |stack| ==> stack[i].name <= counter)
    && (forall i, j :: 0 <= i < j < |stack| ==> stack[i].name < stack[j].name)
  }

  lemma {:induction false} FindUnique(stack: seq<Savepoint>, counter: nat, i: nat)
    requires Fresh(stack, counter) && i < |stack|
    ensures Find(stack, stack[i].name) == Some(i)
    decreases |stack|
  {
    var last := |stack| - 1;
    if i < last {
      assert stack[i].name < stack[last].name;
      var below := stack[..last];
      assert below[i] == stack[i];
      FindUnique(below, counter, i);
    }
  }

  /** The part of a connection a nested stretch may not touch: what was there before it. */
  ghost predicate Kept(c: Connection, after: Connection) {
    && c.open && after.open
    && after.committed == c.committed
    && after.missing == c.missing
    && c.counter <= after.counter
    && |c.stack| <= |after.stack| && after.stack[..|c.stack|] == c.stack
    && Fresh(after.stack, after.counter)
  }

  lemma KeptTrans(a: Connection, b: Connection, c: Connection)
    requires Kept(a, b) && Kept(b, c)
    ensures Kept(a, c)
  {
    assert c.stack[..|a.stack|] == c.stack[..|b.stack|][..|a.stack|];
  }

  /** The connection after a stretch agrees with the tree: same end, same writes unless blocked. */
  ghost predicate Agrees<T>(before: Table, after: Connection, result: T, tree: Effect<T>) {
    && result == tree.result
    && after.aborted == tree.blocked
    && (!tree.blocked ==> after.table == ApplyAll(before, tree.kept))
  }

  /**
   However many rolled-back savepoints the body left on the stack, RELEASE and ROLLBACK
   TO find the savepoint this Tx made, at the place it made it.
   */
  lemma OwnSavepoint(c: Connection, marked: Connection, after: Connection, name: nat)
    requires Fresh(c.stack, c.counter) && name == c.counter + 1
    requires marked == c.(counter := name, stack := c.stack + [Savepoint(name, c.table)])
    requires Kept(marked, after)
    ensures Find(after.stack, name) == Some(|c.stack|)
    ensures after.stack[|c.stack|].saved == c.table
    ensures after.stack[..|c.stack|] == c.stack
    ensures Kept(c, RollbackTo(after, name).0) && RollbackTo(after, name).1
    ensures Kept(c, Release(after, name).0) && Release(after, name).1 == !after.aborted
  {
    var mine := |c.stack|;
    assert after.stack[..mine + 1] == marked.stack;
    assert after.stack[mine] == marked.stack[mine] == Savepoint(name, c.table);
    FindUnique(after.stack, after.counter, mine);
    assert after.stack[..mine] == marked.stack[..mine] == c.stack;
    var undone := RollbackTo(after, name).0;
    assert undone.stack[..mine] == c.stack;
  }

  lemma {:induction false} NestedRefines(e: Engine, c: Connection, p: Program)
    requires c.open && Fresh(c.stack, c.counter)
    ensures var (after, o) := RunTx(e, c, p);
            Kept(c, after) && Agrees(c.table, after, o, TreeTx(e, p, true, c.aborted))
    decreases p, 1
  {
    hide RunSteps, TreeSteps, Find, Apply;
    if e.savepoints && !c.aborted {
      var name := c.counter + 1;
      var marked := c.(counter := name, stack := c.stack + [Savepoint(name, c.table)]);
      StepsRefine(e, marked, p.steps, p.end);
      var (after, end) := RunSteps(e, marked, p.steps, p.end);
      OwnSavepoint(c, marked, after, name);
    } else {
      assert c.stack[..|c.stack|] == c.stack;
    }
  }

  lemma {:induction false} StepsRefine(e: Engine, c: Connection, steps: seq<Step>, end: End)
    requires c.open && Fresh(c.stack, c.counter)
    ensures var (after, ended) := RunSteps(e, c, steps, end);
            Kept(c, after) && Agrees(c.table, after, ended, TreeSteps(e, steps, end, c.aborted))
    decreases steps, 0
  {
    hide RunTx, TreeTx, Apply;
    assert c.stack[..|c.stack|] == c.stack;
    if steps != [] {
      match steps[0]
      case Exec(w, accepted, swallow) =>
        var (next, ok) := ExecOn(e, c, w, accepted);
        if ok || swallow {
          StepsRefine(e, next, steps[1..], end);
          var rest := TreeSteps(e, steps[1..], end, next.aborted);
          ApplyConcat(c.table, if ok then [w] else [], rest.kept);
          assert ApplyAll(c.table, [w]) == Apply(c.table, w);
        }
      case Call(body, _, _) =>
        assert steps decreases to steps[0];
        NestedRefines(e, c, body);
        var (next, o) := RunTx(e, c, body);
        if Continue(steps[0], o).None? {
          StepsRefine(e, next, steps[1..], end);
          KeptTrans(c, next, RunSteps(e, next, steps[1..], end).0);
          var sub := TreeTx(e, body, true, c.aborted);
          var rest := TreeSteps(e, steps[1..], end, sub.blocked);
          BlockedStays(e, steps[1..], end);
          ApplyConcat(c.table, sub.kept, rest.kept);
        }
    }
  }

  /** A blocked transaction stays blocked until something is rolled back. */
  lemma {:induction false} BlockedStays(e: Engine, steps: seq<Step>, end: End)
    ensures TreeSteps(e, steps, end, true).blocked
    decreases |steps|
  {
    if steps != [] {
      BlockedStays(e, steps[1..], end);
    }
  }

  /**
   The main result. A root Tx over any tree of nested Tx calls ends as the tree does,
   commits exactly the writes of the calls that succeeded along with all their
   ancestors, leaves no transaction open, and never names a missing savepoint.
   */
  lemma RootRefines(e: Engine, c: Connection, p: Program)
    requires !c.open
    ensures var (after, o) := RunTx(e, c, p);
            var tree := TreeTx(e, p, false, false);
            && o == tree.result
            && after.committed == ApplyAll(c.committed, tree.kept)
            && !after.open
            && after.missing == c.missing
  {
    var begun := c.(open := true, table := c.committed, aborted := false, stack := [], counter := 0);
    StepsRefine(e, begun, p.steps, p.end);
  }

  /** Nothing of a failed or panicked root Tx reaches the committed state. */
  lemma AllOrNothing(e: Engine, c: Connection, p: Program)
    requires !c.open && RunTx(e, c, p).1 != Done
    ensures RunTx(e, c, p).0.committed == c.committed
  {
    RootRefines(e, c, p);
  }

  /**
   An error or panic of a nested call that nobody catches ends the root alike. One that is
   caught leaves no trace, unless the nested callback returned nil over an error that
   blocks the transaction: then nothing can be committed any more.
   */
  lemma NestedFailure(e: Engine, c: Connection, body: Program, catchError: bool, catchPanic: bool, rest: seq<Step>, end: End)
    requires !c.open && TreeTx(e, body, true, false).result != Done
    ensures var o := TreeTx(e, body, true, false).result;
            var caught := (o == Failed && catchError) || (o == Panicked && catchPanic);
            var (after, ended) := RunTx(e, c, Program([Call(body, catchError, catchPanic)] + rest, end));
            if !caught then ended == o && after.committed == c.committed
            else if TreeTx(e, body, true, false).blocked then ended != Done && after.committed == c.committed
            else ended == RunTx(e, c, Program(rest, end)).1 && after.committed == RunTx(e, c, Program(rest, end)).0.committed
  {
    var steps := [Call(body, catchError, catchPanic)] + rest;
    assert steps[1..] == rest;
    RootRefines(e, c, Program(steps, end));
    RootRefines(e, c, Program(rest, end));
    BlockedStays(e, rest, end);
    var inner, more := TreeTx(e, body, true, false), TreeSteps(e, rest, end, false);
    assert inner.kept == [] && [] + more.kept == more.kept;
    hide RunTx;
  }

  // ----- Which writes survive, call by call -----

  /** The engine rejects nothing and every level can be nested. */
  predicate Smooth(steps: seq<Step>)
    decreases steps
  {
    steps == [] || (
      && (match steps[0]
          case Exec(_, accepted, _) => accepted
          case Call(body, _, _) =>
            assert steps decreases to steps[0];
            Smooth(body.steps))
      && Smooth(steps[1..]))
  }

  /** Did this call succeed: no error or panic reached its end. */
  function BodyEnd(steps: seq<Step>, end: End): End
    decreases steps, 0
  {
    if steps == [] then end
    else if steps[0].Exec? then BodyEnd(steps[1..], end)
    else
      assert steps decreases to steps[0];
      match Continue(steps[0], CallOutcome(steps[0].body))
      case None => BodyEnd(steps[1..], end)
      case Some(ended) => ended
  }

  function CallOutcome(p: Program): Outcome
    decreases p, 1
  {
    match BodyEnd(p.steps, p.end) case ReturnNil => Done case ReturnError => Failed case Panic => Panicked
  }

  /**
   The steps of a body that execution reaches, each write tagged with whether every call
   around it, up to but not including the body itself, succeeded.
   */
  function Reached(steps: seq<Step>, inside: bool): seq<(Write, bool)>
    decreases steps
  {
    if steps == [] then []
    else
      match steps[0]
      case Exec(w, _, _) => [(w, inside)] + Reached(steps[1..], inside)
      case Call(body, _, _) =>
        assert steps decreases to steps[0];
        var o := CallOutcome(body);
        var here := Reached(body.steps, inside && o.Done?);
        if Continue(steps[0], o).Some? then here else here + Reached(steps[1..], inside)
  }

  function Survivors(ws: seq<(Write, bool)>): seq<Write> {
    if ws == [] then [] else (if ws[0].1 then [ws[0].0] else []) + Survivors(ws[1..])
  }

  lemma {:induction false} SurvivorsConcat(a: seq<(Write, bool)>, b: seq<(Write, bool)>)
    ensures Survivors(a + b) == Survivors(a) + Survivors(b)
  {
    if a == [] {
      assert a + b == b;
    } else {
      SurvivorsConcat(a[1..], b);
      assert (a + b)[1..] == a[1..] + b;
      var first := if a[0].1 then [a[0].0] else [];
      assert Survivors(a + b) == first + Survivors(a[1..] + b);
      assert Survivors(a) == first + Survivors(a[1..]);
    }
  }

  lemma {:induction false} NoneSurvive(steps: seq<Step>)
    ensures Survivors(Reached(steps, false)) == []
    decreases steps
  {
    if steps != [] {
      NoneSurvive(steps[1..]);
      if steps[0].Call? {
        assert steps decreases to steps[0];
        NoneSurvive(steps[0].body.steps);
        SurvivorsConcat(Reached(steps[0].body.steps, false), Reached(steps[1..], false));
      }
    }
  }

  lemma {:induction false} SmoothSteps(e: Engine, steps: seq<Step>, end: End)
    requires e.savepoints && Smooth(steps)
    ensures TreeSteps(e, steps, end, false) == Effect(Survivors(Reached(steps, true)), BodyEnd(steps, end), false)
    decreases steps
  {
    if steps != [] {
      SmoothSteps(e, steps[1..], end);
      if steps[0].Call? {
        var body := steps[0].body;
        assert steps decreases to steps[0];
        SmoothSteps(e, body.steps, body.end);
        NoneSurvive(body.steps);
        var o := CallOutcome(body);
        SurvivorsConcat(Reached(body.steps, o.Done?), Reached(steps[1..], true));
      }
    }
  }

  /**
   When the engine rejects no statement, the committed state is the old one plus exactly
   the reached writes all of whose enclosing calls succeeded, in program order.
   */
  lemma CommittedWrites(e: Engine, c: Connection, p: Program)
    requires !c.open && e.savepoints && Smooth(p.steps)
    ensures var (after, o) := RunTx(e, c, p);
            && o == CallOutcome(p)
            && after.committed == ApplyAll(c.committed, Survivors(Reached(p.steps, o.Done?)))
  {
    RootRefines(e, c, p);
    SmoothSteps(e, p.steps, p.end);
    NoneSurvive(p.steps);
  }

  /** Applied in order, the last write to a key decides about it, and a key nobody writes stays as it was. */
  lemma {:induction false} LastWriteWins(t: Table, ws: seq<Write>, k: string)
    ensures (forall w <- ws :: w.key != k) ==> (k in ApplyAll(t, ws) <==> k in t) && (k in t ==> ApplyAll(t, ws)[k] == t[k])
    ensures forall i :: 0 <= i < |ws| && ws[i].key == k && (forall j :: i < j < |ws| ==> ws[j].key != k) ==>
      match ws[i]
      case Put(_, v) => k in ApplyAll(t, ws) && ApplyAll(t, ws)[k] == v
      case Remove(_) => k !in ApplyAll(t, ws)
    decreases |ws|
  {
    if ws != [] {
      LastWriteWins(Apply(t, ws[0]), ws[1..], k);
      assert forall w <- ws[1..] :: w in ws;
      forall i | 0 <= i < |ws| && ws[i].key == k && (forall j :: i < j < |ws| ==> ws[j].key != k)
        ensures match ws[i]
                case Put(_, v) => k in ApplyAll(t, ws) && ApplyAll(t, ws)[k] == v
                case Remove(_) => k !in ApplyAll(t, ws)
      {
        if i == 0 {
          forall w | w in ws[1..] ensures w.key != k { var j :| 0 <= j < |ws| - 1 && ws[1..][j] == w; assert ws[j + 1] == w; }
        } else {
          assert ws[1..][i - 1] == ws[i];
        }
      }
    }
  }

  /** After a rejected statement in a blocking engine, swallowing the error cannot save the transaction. */
  lemma SwallowedErrorStillFails(c: Connection, w: Write)
    requires !c.open
    ensures var e := Engine(true, true);
            var p := Program([Exec(w, false, true)], ReturnNil);
            RunTx(e, c, p).1 == Failed && RunTx(e, c, p).0.committed == c.committed
  {
    var e, p := Engine(true, true), Program([Exec(w, false, true)], ReturnNil);
    assert p.steps[1..] == [];
    assert TreeSteps(e, p.steps, ReturnNil, false).blocked;
    RootRefines(e, c, p);
  }

  /**
   Tx documents that it commits when the callback returns nil. Exactly: it reports
   success if and only if the callback returned nil and no blocking error was left
   standing on the connection when it did.
   */
  lemma CommitsIff(e: Engine, c: Connection, p: Program)
    requires !c.open
    ensures var body := TreeSteps(e, p.steps, p.end, false);
            RunTx(e, c, p).1.Done? <==> body.result.ReturnNil? && !body.blocked
  {
    RootRefines(e, c, p);
  }

  /** Some statement that execution comes to is refused, and the callback goes on all the same. */
  predicate Swallows(e: Engine, steps: seq<Step>, end: End)
    decreases steps
  {
    steps != [] &&
    match steps[0]
    case Exec(_, accepted, swallow) => (!accepted && swallow) || (accepted && Swallows(e, steps[1..], end))
    case Call(body, _, _) =>
      assert steps decreases to steps[0];
      || (e.savepoints && Swallows(e, body.steps, body.end))
      || (Continue(steps[0], TreeTx(e, body, true, false).result).None? && Swallows(e, steps[1..], end))
  }

  lemma {:induction false} NothingBlocks(e: Engine, steps: seq<Step>, end: End)
    requires !e.aborts || !Swallows(e, steps, end)
    ensures var body := TreeSteps(e, steps, end, false);
            (body.result.ReturnNil? || !e.aborts) ==> !body.blocked
    decreases steps
  {
    if steps != [] {
      if steps[0].Call? {
        var body := steps[0].body;
        assert steps decreases to steps[0];
        if e.savepoints {
          NothingBlocks(e, body.steps, body.end);
        }
        assert !TreeTx(e, body, true, false).blocked;
        if Continue(steps[0], TreeTx(e, body, true, false).result).None? {
          NothingBlocks(e, steps[1..], end);
        }
      } else if !e.aborts || steps[0].accepted {
        NothingBlocks(e, steps[1..], end);
      }
    }
  }

  /**
   So Tx does what it documents, committing exactly when the callback returns nil, in an
   engine that does not block, and in any engine if no refused statement was swallowed.
   */
  lemma CommitsAsDocumented(e: Engine, c: Connection, p: Program)
    requires !c.open && (!e.aborts || !Swallows(e, p.steps, p.end))
    ensures RunTx(e, c, p).1.Done? <==> TreeSteps(e, p.steps, p.end, false).result.ReturnNil?
  {
    CommitsIff(e, c, p);
    NothingBlocks(e, p.steps, p.end);
  }

  // ----- The object: one connection, updated in place -----

  class Session {
    const e: Engine
    var committed: Table
    var open: bool
    var table: Table
    var aborted: bool
    var stack: seq<Savepoint>
    var counter: nat
    var missing: nat

    function State(): Connection
      reads this
    {
      Connection(committed, open, table, aborted, stack, counter, missing)
    }

    constructor (e: Engine, initial: Table)
      ensures this.e == e
      ensures State() == Connection(initial, false, initial, false, [], 0, 0)
    {
      this.e := e;
      committed, open, table, aborted, stack, counter, missing := initial, false, initial, false, [], 0, 0;
    }

    method Lookup(name: nat) returns (r: Option<nat>)
      ensures r == Find(stack, name)
    {
      var i := |stack|;
      assert stack[..i] == stack;
      while i > 0
        invariant 0 <= i <= |stack|
        invariant Find(stack, name) == Find(stack[..i], name)
      {
        if stack[i - 1].name == name {
          return Some(i - 1);
        }
        i := i - 1;
        assert stack[..i + 1][..i] == stack[..i];
      }
      r := None;
    }

    method ReleaseSavepoint(name: nat) returns (ok: bool)
      modifies this
      ensures (State(), ok) == Release(old(State()), name)
      ensures ok <==> !old(aborted) && exists i: nat :: Topmost(old(stack), name, i)
      ensures ok ==> exists i: nat :: Topmost(old(stack), name, i) && stack == old(stack)[..i]
      ensures table == old(table) && committed == old(committed) && aborted == old(aborted) && (!ok ==> stack == old(stack))
    {
      if aborted {
        return false;
      }
      var i := Lookup(name);
      if i.None? {
        missing := missing + 1;
        return false;
      }
      stack := stack[..i.value];
      ok := true;
    }

    method RollbackToSavepoint(name: nat) returns (ok: bool)
      modifies this
      ensures (State(), ok) == RollbackTo(old(State()), name)
      ensures ok <==> exists i: nat :: Topmost(old(stack), name, i)
      ensures ok ==> !aborted && exists i: nat :: Topmost(old(stack), name, i) && stack == old(stack)[..i + 1] && table == old(stack)[i].saved
      ensures committed == old(committed) && (!ok ==> table == old(table) && stack == old(stack) && aborted == old(aborted))
    {
      var i := Lookup(name);
      if i.None? {
        missing := missing + 1;
        return false;
      }
      table := stack[i.value].saved;
      stack := stack[..i.value + 1];
      aborted := false;
      ok := true;
    }

    method Commit() returns (ok: bool)
      modifies this
      ensures (State(), ok) == CommitRoot(old(State()))
    {
      ok := !aborted;
      if ok {
        committed, open, stack := table, false, [];
      } else {
        Rollback();
      }
    }

    method Rollback()
      modifies this
      ensures State() == RollbackRoot(old(State()))
    {
      table, open, stack, aborted := committed, false, [], false;
    }

    method ExecStatement(w: Write, accepted: bool) returns (ok: bool)
      modifies this
      ensures (State(), ok) == ExecOn(e, old(State()), w, accepted)
    {
      if aborted {
        return false;
      }
      if !accepted {
        aborted := e.aborts;
        return false;
      }
      table := Apply(table, w);
      ok := true;
    }

    /** BeginTx, the callback, then Commit or Rollback; a panic rolls back and goes on. */
    method Tx(p: Program) returns (o: Outcome)
      modifies this
      ensures (State(), o) == RunTx(e, old(State()), p)
      decreases p, 1
    {
      if !open {
        open, table, aborted, stack, counter := true, committed, false, [], 0;
        var end := Run(p.steps, p.end);
        match end {
          case ReturnNil =>
            var ok := Commit();
            o := if ok then Done else Failed;
          case ReturnError =>
            Rollback();
            o := Failed;
          case Panic =>
            Rollback();
            o := Panicked;
        }
        return;
      }
      if !e.savepoints {
        return Failed;
      }
      counter := counter + 1;
      var name := counter;
      if aborted {
        return Failed;
      }
      stack := stack + [Savepoint(name, table)];
      var end := Run(p.steps, p.end);
      match end {
        case ReturnNil =>
          var ok := ReleaseSavepoint(name);
          o := if ok then Done else Failed;
        case ReturnError =>
          var _ := RollbackToSavepoint(name);
          o := Failed;
        case Panic =>
          var _ := RollbackToSavepoint(name);
          o := Panicked;
      }
    }

    /** The callback: its steps in order, until one of them ends it. */
    method Run(steps: seq<Step>, end: End) returns (ended: End)
      modifies this
      ensures (State(), ended) == RunSteps(e, old(State()), steps, end)
      decreases steps, 0
    {
      var i := 0;
      while i < |steps|
        invariant 0 <= i <= |steps|
        invariant RunSteps(e, State(), steps[i..], end) == RunSteps(e, old(State()), steps, end)
      {
        assert steps[i..][0] == steps[i] && steps[i..][1..] == steps[i + 1..];
        match steps[i] {
          case Exec(w, accepted, swallow) =>
            var ok := ExecStatement(w, accepted);
            if !(ok || swallow) {
              return ReturnError;
            }
          case Call(body, catchError, catchPanic) =>
            assert steps decreases to steps[i];
            var o := Tx(body);
            if o == Failed && !catchError {
              return ReturnError;
            }
            if o == Panicked && !catchPanic {
              return Panic;
            }
        }
        i := i + 1;
      }
      assert steps[|steps|..] == [];
      ended := end;
    }

    /** A root Tx on the object: the theorem above, for the method. */
    method RootTx(p: Program) returns (o: Outcome)
      requires !open
      modifies this
      ensures var tree := TreeTx(e, p, false, false);
              && o == tree.result
              && committed == ApplyAll(old(committed), tree.kept)
              && !open && missing == old(missing)
    {
      RootRefines(e, State(), p);
      o := Tx(p);
    }
  }
}
