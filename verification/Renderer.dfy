/**
 The renderer of pack/internal/sqlbuild/render.go: an object that owns the growing
 argument list and writes text against it, so that every placeholder it writes is the
 number of the argument it has just appended.
 */
module Rendering {
  import opened Results
  import opened SqlText
  import opened Predicates

  datatype Assignment =
    | SetValue(col: Column, value: Value)
    | SetRaw(col: Column, fragment: seq<Part>, rawArgs: seq<Value>)

  datatype JoinClause = JoinClause(left: bool, table: Table, on: Predicate)

  function TableText(t: Table): seq<Token> {
    if t.alias != "" then [Name(t.name), Word("AS"), Name(t.alias)] else [Name(t.name)]
  }

  // ----- Assignments: the value side, shared by SET lists and VALUES rows -----

  function ValueError(a: Assignment): Option<RenderError> {
    if a.SetRaw? then FirstRawError(a.fragment, |a.rawArgs|) else None
  }

  function ValueArgs(a: Assignment): seq<Value> {
    if a.SetRaw? then a.rawArgs else [a.value]
  }

  function ValueText(d: Dialect, a: Assignment, base: nat): seq<Token> {
    if a.SetRaw? then RawText(d, a.fragment, base) else [Placeholder(d, base + 1)]
  }

  function ValueInline(a: Assignment): seq<Token> {
    if a.SetRaw? then InlineRaw(a.fragment, a.rawArgs) else [Lit(a.value)]
  }

  predicate ValueCountsUp(a: Assignment) {
    a.SetRaw? ==> RawCountsUp(a.fragment, |a.rawArgs|)
  }

  function JoinHead(j: JoinClause): seq<Token> {
    [Word(if j.left then "LEFT JOIN" else "JOIN")] + TableText(j.table) + [Word("ON")]
  }

  class Renderer {
    const d: Dialect
    var args: seq<Value>

    constructor (d: Dialect)
      ensures this.d == d && args == []
    {
      this.d := d;
      args := [];
    }

    method Bind(v: Value) returns (t: Token)
      modifies this
      ensures args == old(args) + [v]
      ensures t == Placeholder(d, |args|)
    {
      args := args + [v];
      t := Placeholder(d, |args|);
    }

    method BindList(vs: seq<Value>) returns (ts: seq<Token>)
      modifies this
      ensures args == old(args) + vs
      ensures ts == Join(Binders(d, |vs|, |old(args)|), Comma)
    {
      var parts: seq<seq<Token>> := [];
      for i := 0 to |vs|
        invariant args == old(args) + vs[..i]
        invariant parts == Binders(d, |vs|, |old(args)|)[..i]
      {
        var t := Bind(vs[i]);
        parts := parts + [[t]];
      }
      assert vs[..|vs|] == vs && parts == Binders(d, |vs|, |old(args)|);
      ts := Join(parts, Comma);
    }

    /** Rewrites the fragment's own $k against what is already bound, then appends its arguments. */
    method RenderRawFragment(fragment: seq<Part>, rawArgs: seq<Value>) returns (r: Result<seq<Token>, RenderError>)
      modifies this
      ensures FirstRawError(fragment, |rawArgs|).Some? ==>
        r == Failure(FirstRawError(fragment, |rawArgs|).value) && args == old(args)
      ensures FirstRawError(fragment, |rawArgs|).None? ==>
        r == Success(RawText(d, fragment, |old(args)|)) && args == old(args) + rawArgs
      ensures r.Success? <==> Renderable(d, Raw(fragment, rawArgs))
      ensures r.Success? ==> |r.value| == |fragment| && forall i :: 0 <= i < |fragment| ==>
        match fragment[i] case Chunk(s) => r.value[i] == Own(s) case Hole(k) => r.value[i] == Placeholder(d, |old(args)| + k)
    {
      RendersIff(d, Raw(fragment, rawArgs));
      hide Renderable;
      var base := |args|;
      var out: seq<Token> := [];
      for i := 0 to |fragment|
        invariant args == old(args)
        invariant out == RawText(d, fragment, base)[..i]
        invariant FirstRawError(fragment[i..], |rawArgs|) == FirstRawError(fragment, |rawArgs|)
      {
        match fragment[i] {
          case Chunk(s) =>
            out := out + [Own(s)];
          case Hole(k) =>
            if !(1 <= k <= |rawArgs|) {
              return Failure(RawPlaceholderOutOfRange(k, |rawArgs|));
            }
            out := out + [Placeholder(d, base + k)];
        }
      }
      assert out == RawText(d, fragment, base);
      args := args + rawArgs;
      r := Success(out);
    }

    method RenderPredicate(p: Predicate) returns (r: Result<seq<Token>, RenderError>)
      modifies this
      ensures FirstError(d, p).Some? ==> r == Failure(FirstError(d, p).value)
      ensures FirstError(d, p).None? ==>
        r == Success(Rendered(d, p, |old(args)|)) && args == old(args) + Args(p)
      ensures r.Success? <==> Renderable(d, p)
      ensures !UsesRaw(p) ==> (r.Success? <==> d.iLike || !UsesILike(p))
      ensures r.Failure? ==> exists q :: Occurs(q, p) && Refused(d, q, r.error)
      decreases p, 0
    {
      RendersIff(d, p);
      hide Occurs, Refused, Renderable, UsesILike, UsesRaw;
      match p {
        case NoCondition =>
          r := Success([KwTrue]);
        case Compare(op, col, arg) =>
          if op == ILike && !d.iLike {
            return Failure(ILikeUnsupported);
          }
          var t := Bind(arg);
          r := Success([Ident(col), Sym(op), t]);
        case NotLike(col, pattern) =>
          var t := Bind(pattern);
          r := Success([Ident(col), KwNot, Sym(Like), t]);
        case In(col, values) =>
          if |values| == 0 {
            return Success([KwFalse]);
          }
          var list := BindList(values);
          r := Success([Ident(col), KwIn, LParen] + list + [RParen]);
        case NotIn(col, values) =>
          if |values| == 0 {
            return Success([KwTrue]);
          }
          var list := BindList(values);
          r := Success([Ident(col), KwNot, KwIn, LParen] + list + [RParen]);
        case IsNull(col) =>
          r := Success([Ident(col), KwIs, KwNull]);
        case IsNotNull(col) =>
          r := Success([Ident(col), KwIs, KwNot, KwNull]);
        case Between(col, lo, hi) =>
          var l := Bind(lo);
          var h := Bind(hi);
          r := Success([Ident(col), KwBetween, l, KwAnd, h]);
        case And(children) =>
          if |children| == 0 {
            return Success([KwTrue]);
          }
          var parts := RenderChildren(children);
          if parts.Failure? {
            return Failure(parts.error);
          }
          r := Success(Join(parts.value, KwAnd));
        case Or(children) =>
          if |children| == 0 {
            return Success([KwFalse]);
          }
          var parts := RenderChildren(children);
          if parts.Failure? {
            return Failure(parts.error);
          }
          r := Success(Join(parts.value, KwOr));
        case Not(child) =>
          var s := RenderChild(child);
          if s.Failure? {
            return s;
          }
          r := Success([KwNot] + s.value);
        case Raw(fragment, rawArgs) =>
          r := RenderRawFragment(fragment, rawArgs);
        case EqCol(left, right) =>
          r := Success([Ident(left), Sym(Eq), Ident(right)]);
      }
    }

    /** The loop over the operands of one And or Or. */
    method RenderChildren(ps: seq<Predicate>) returns (r: Result<seq<seq<Token>>, RenderError>)
      modifies this
      ensures FirstErrorAmong(d, ps).Some? ==> r == Failure(FirstErrorAmong(d, ps).value)
      ensures FirstErrorAmong(d, ps).None? ==>
        r == Success(RenderedAll(d, ps, |old(args)|)) && args == old(args) + ArgsOf(ps)
      decreases ps, 0
    {
      var parts: seq<seq<Token>> := [];
      for i := 0 to |ps|
        invariant FirstErrorAmong(d, ps[i..]) == FirstErrorAmong(d, ps)
        invariant args + ArgsOf(ps[i..]) == old(args) + ArgsOf(ps)
        invariant parts + RenderedAll(d, ps[i..], |args|) == RenderedAll(d, ps, |old(args)|)
      {
        assert ps[i..][0] == ps[i] && ps[i..][1..] == ps[i + 1..];
        label before:
        var s := RenderChild(ps[i]);
        if s.Failure? {
          return Failure(s.error);
        }
        parts := parts + [s.value];
        assert args + ArgsOf(ps[i + 1..]) == old@before(args) + ArgsOf(ps[i..]);
      }
      assert ps[|ps|..] == [];
      assert parts == RenderedAll(d, ps, |old(args)|) && args == old(args) + ArgsOf(ps);
      r := Success(parts);
    }

    method RenderChild(p: Predicate) returns (r: Result<seq<Token>, RenderError>)
      modifies this
      ensures FirstError(d, p).Some? ==> r == Failure(FirstError(d, p).value)
      ensures FirstError(d, p).None? ==>
        r == Success(RenderedChild(d, p, |old(args)|)) && args == old(args) + Args(p)
      decreases p, 1
    {
      r := RenderPredicate(p);
      if r.Failure? {
        return;
      }
      if p.And? || p.Or? || p.Not? {
        r := Success([LParen] + r.value + [RParen]);
      }
    }

    /** The right-hand side of one assignment. */
    method RenderValue(a: Assignment) returns (r: Result<seq<Token>, RenderError>)
      modifies this
      ensures ValueError(a).Some? ==> r == Failure(ValueError(a).value)
      ensures ValueError(a).None? ==>
        r == Success(ValueText(d, a, |old(args)|)) && args == old(args) + ValueArgs(a)
    {
      match a {
        case SetValue(_, value) =>
          var t := Bind(value);
          r := Success([t]);
        case SetRaw(_, fragment, rawArgs) =>
          r := RenderRawFragment(fragment, rawArgs);
      }
    }

    method RenderAssignment(a: Assignment) returns (r: Result<seq<Token>, RenderError>)
      modifies this
      ensures ValueError(a).Some? ==> r == Failure(ValueError(a).value)
      ensures ValueError(a).None? ==>
        r == Success([Name(a.col.name), Sym(Eq)] + ValueText(d, a, |old(args)|)) && args == old(args) + ValueArgs(a)
    {
      r := RenderValue(a);
      if r.Success? {
        r := Success([Name(a.col.name), Sym(Eq)] + r.value);
      }
    }

    method RenderJoin(j: JoinClause) returns (r: Result<seq<Token>, RenderError>)
      modifies this
      ensures FirstError(d, j.on).Some? ==> r == Failure(FirstError(d, j.on).value)
      ensures FirstError(d, j.on).None? ==>
        r == Success(JoinHead(j) + Rendered(d, j.on, |old(args)|)) && args == old(args) + Args(j.on)
    {
      var text := [Word(if j.left then "LEFT JOIN" else "JOIN")];
      text := text + TableText(j.table) + [Word("ON")];
      var on := RenderPredicate(j.on);
      if on.Failure? {
        return on;
      }
      r := Success(text + on.value);
    }
  }
}
