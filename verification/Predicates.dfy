/**
 The predicate trees of pack/internal/sqlbuild/predicate.go and what render.go beside it makes
 of them: a text with placeholders, a list of arguments, or the first error.
 */
module Predicates {
  import opened Results
  import opened SqlText

  /** A raw fragment, cut at its own $k placeholders. */
  datatype Part = Chunk(text: string) | Hole(k: nat)

  datatype Predicate =
    | NoCondition
    | Compare(op: Op, col: Column, arg: Value)
    | NotLike(col: Column, pattern: Value)
    | In(col: Column, values: seq<Value>)
    | NotIn(col: Column, values: seq<Value>)
    | IsNull(col: Column)
    | IsNotNull(col: Column)
    | Between(col: Column, lo: Value, hi: Value)
    | And(children: seq<Predicate>)
    | Or(children: seq<Predicate>)
    | Not(child: Predicate)
    | Raw(fragment: seq<Part>, rawArgs: seq<Value>)
    | EqCol(col: Column, right: Column)
  {
    predicate IsZero() {
      NoCondition?
    }

    /** renderChild wraps exactly these in parentheses. */
    predicate IsCompound() {
      And? || Or? || Not?
    }
  }

  datatype RenderError =
    | RawPlaceholderOutOfRange(index: nat, numArgs: nat)
    | ILikeUnsupported
    | ConflictingLockClause
    | SkipLockedRequiresLockClause
    | RowLockingUnsupported
    | ReturningUnsupported

  // ----- Errors -----

  function FirstRawError(fragment: seq<Part>, numArgs: nat): Option<RenderError> {
    if fragment == [] then None
    else if fragment[0].Hole? && !(1 <= fragment[0].k <= numArgs) then
      Some(RawPlaceholderOutOfRange(fragment[0].k, numArgs))
    else FirstRawError(fragment[1..], numArgs)
  }

  /** The error that rendering p stops at, if any: the first one from left to right. */
  function FirstError(d: Dialect, p: Predicate): Option<RenderError>
    decreases p
  {
    match p
    case Compare(ILike, _, _) => if d.iLike then None else Some(ILikeUnsupported)
    case Raw(fragment, rawArgs) => FirstRawError(fragment, |rawArgs|)
    case And(children) => FirstErrorAmong(d, children)
    case Or(children) => FirstErrorAmong(d, children)
    case Not(child) => FirstError(d, child)
    case _ => None
  }

  function FirstErrorAmong(d: Dialect, ps: seq<Predicate>): Option<RenderError>
    decreases ps
  {
    if ps == [] then None
    else
      var first := FirstError(d, ps[0]);
      if first.Some? then first else FirstErrorAmong(d, ps[1..])
  }

  // ----- Arguments -----

  /** The values p binds, in the order they are appended to the argument list. */
  function Args(p: Predicate): seq<Value>
    decreases p
  {
    match p
    case Compare(_, _, arg) => [arg]
    case NotLike(_, pattern) => [pattern]
    case In(_, values) => values
    case NotIn(_, values) => values
    case Between(_, lo, hi) => [lo, hi]
    case And(children) => ArgsOf(children)
    case Or(children) => ArgsOf(children)
    case Not(child) => Args(child)
    case Raw(_, rawArgs) => rawArgs
    case _ => []
  }

  function ArgsOf(ps: seq<Predicate>): seq<Value>
    decreases ps
  {
    if ps == [] then [] else Args(ps[0]) + ArgsOf(ps[1..])
  }

  // ----- Text -----

  function Join(parts: seq<seq<Token>>, separator: Token): seq<Token> {
    if |parts| == 0 then []
    else if |parts| == 1 then parts[0]
    else parts[0] + [separator] + Join(parts[1..], separator)
  }

  function RawText(d: Dialect, fragment: seq<Part>, base: nat): (r: seq<Token>)
    ensures |r| == |fragment|
  {
    seq(|fragment|, i requires 0 <= i < |fragment| =>
      match fragment[i] case Chunk(s) => Own(s) case Hole(k) => Placeholder(d, base + k))
  }

  function Binders(d: Dialect, n: nat, base: nat): (r: seq<seq<Token>>)
    ensures |r| == n
    ensures forall i :: 0 <= i < n ==> r[i] == [Placeholder(d, base + i + 1)]
  {
    seq(n, i requires 0 <= i < n => [Placeholder(d, base + i + 1)])
  }

  /** The text of p when base arguments are already bound. */
  function Rendered(d: Dialect, p: Predicate, base: nat): seq<Token>
    decreases p, 0
  {
    match p
    case NoCondition => [KwTrue]
    case Compare(op, col, _) => [Ident(col), Sym(op), Placeholder(d, base + 1)]
    case NotLike(col, _) => [Ident(col), KwNot, Sym(Like), Placeholder(d, base + 1)]
    case In(col, values) =>
      if values == [] then [KwFalse]
      else [Ident(col), KwIn, LParen] + Join(Binders(d, |values|, base), Comma) + [RParen]
    case NotIn(col, values) =>
      if values == [] then [KwTrue]
      else [Ident(col), KwNot, KwIn, LParen] + Join(Binders(d, |values|, base), Comma) + [RParen]
    case IsNull(col) => [Ident(col), KwIs, KwNull]
    case IsNotNull(col) => [Ident(col), KwIs, KwNot, KwNull]
    case Between(col, _, _) =>
      [Ident(col), KwBetween, Placeholder(d, base + 1), KwAnd, Placeholder(d, base + 2)]
    case And(children) => if children == [] then [KwTrue] else Join(RenderedAll(d, children, base), KwAnd)
    case Or(children) => if children == [] then [KwFalse] else Join(RenderedAll(d, children, base), KwOr)
    case Not(child) => [KwNot] + RenderedChild(d, child, base)
    case Raw(fragment, _) => RawText(d, fragment, base)
    case EqCol(left, right) => [Ident(left), Sym(Eq), Ident(right)]
  }

  function RenderedChild(d: Dialect, p: Predicate, base: nat): seq<Token>
    decreases p, 1
  {
    if p.IsCompound() then [LParen] + Rendered(d, p, base) + [RParen] else Rendered(d, p, base)
  }

  function RenderedAll(d: Dialect, ps: seq<Predicate>, base: nat): (r: seq<seq<Token>>)
    ensures |r| == |ps|
    decreases ps, 0
  {
    if ps == [] then []
    else [RenderedChild(d, ps[0], base)] + RenderedAll(d, ps[1..], base + |Args(ps[0])|)
  }

  // ----- The reference text: every value written at the spot the builder attached it -----

  function InlineRaw(fragment: seq<Part>, args: seq<Value>): (r: seq<Token>)
    ensures |r| == |fragment|
  {
    seq(|fragment|, i requires 0 <= i < |fragment| =>
      match fragment[i]
      case Chunk(s) => Own(s)
      case Hole(k) => if 1 <= k <= |args| then Lit(args[k - 1]) else Own("$"))
  }

  function Literals(values: seq<Value>): (r: seq<seq<Token>>)
    ensures |r| == |values|
  {
    seq(|values|, i requires 0 <= i < |values| => [Lit(values[i])])
  }

  function Inline(p: Predicate): seq<Token>
    decreases p, 0
  {
    match p
    case NoCondition => [KwTrue]
    case Compare(op, col, arg) => [Ident(col), Sym(op), Lit(arg)]
    case NotLike(col, pattern) => [Ident(col), KwNot, Sym(Like), Lit(pattern)]
    case In(col, values) =>
      if values == [] then [KwFalse]
      else [Ident(col), KwIn, LParen] + Join(Literals(values), Comma) + [RParen]
    case NotIn(col, values) =>
      if values == [] then [KwTrue]
      else [Ident(col), KwNot, KwIn, LParen] + Join(Literals(values), Comma) + [RParen]
    case IsNull(col) => [Ident(col), KwIs, KwNull]
    case IsNotNull(col) => [Ident(col), KwIs, KwNot, KwNull]
    case Between(col, lo, hi) => [Ident(col), KwBetween, Lit(lo), KwAnd, Lit(hi)]
    case And(children) => if children == [] then [KwTrue] else Join(InlineAll(children), KwAnd)
    case Or(children) => if children == [] then [KwFalse] else Join(InlineAll(children), KwOr)
    case Not(child) => [KwNot] + InlineChild(child)
    case Raw(fragment, rawArgs) => InlineRaw(fragment, rawArgs)
    case EqCol(left, right) => [Ident(left), Sym(Eq), Ident(right)]
  }

  function InlineChild(p: Predicate): seq<Token>
    decreases p, 1
  {
    if p.IsCompound() then [LParen] + Inline(p) + [RParen] else Inline(p)
  }

  function InlineAll(ps: seq<Predicate>): (r: seq<seq<Token>>)
    ensures |r| == |ps|
    decreases ps, 0
  {
    if ps == [] then [] else [InlineChild(ps[0])] + InlineAll(ps[1..])
  }

  // ----- Numbered placeholders resolve to the values attached at their spots -----

  /** args holds the given values right after its first base entries. */
  ghost predicate Holds(args: seq<Value>, base: nat, values: seq<Value>) {
    base + |values| <= |args| && args[base..base + |values|] == values
  }

  lemma HoldsSplit(args: seq<Value>, base: nat, a: seq<Value>, b: seq<Value>)
    requires Holds(args, base, a + b)
    ensures Holds(args, base, a) && Holds(args, base + |a|, b)
  {
    var ab := a + b;
    assert args[base..base + |a|] == ab[..|a|] == a;
    assert args[base + |a|..base + |a| + |b|] == ab[|a|..] == b;
  }

  lemma HoldsAt(args: seq<Value>, base: nat, values: seq<Value>, i: nat)
    requires Holds(args, base, values) && i < |values|
    ensures args[base + i] == values[i]
  {
    assert args[base..base + |values|][i] == values[i];
  }

  lemma {:induction false} ResolveJoin(parts: seq<seq<Token>>, resolved: seq<seq<Token>>, separator: Token, args: seq<Value>)
    requires |parts| == |resolved| && !IsBinder(separator)
    requires forall i :: 0 <= i < |parts| ==> Resolve(parts[i], args) == resolved[i]
    ensures Resolve(Join(parts, separator), args) == Join(resolved, separator)
    decreases |parts|
  {
    if |parts| > 1 {
      ResolveJoin(parts[1..], resolved[1..], separator, args);
      ResolveConcat(parts[0] + [separator], Join(parts[1..], separator), args);
      ResolveConcat(parts[0], [separator], args);
    }
  }

  lemma ResolveBinders(d: Dialect, values: seq<Value>, base: nat, args: seq<Value>)
    requires d.numbered && Holds(args, base, values)
    ensures Resolve(Join(Binders(d, |values|, base), Comma), args) == Join(Literals(values), Comma)
  {
    forall i | 0 <= i < |values|
      ensures Resolve(Binders(d, |values|, base)[i], args) == Literals(values)[i]
    {
      HoldsAt(args, base, values, i);
      var binder := Binders(d, |values|, base)[i];
      assert binder == [Ph(base + i + 1)];
      assert Resolve(binder, args)[0] == Lit(values[i]);
    }
    ResolveJoin(Binders(d, |values|, base), Literals(values), Comma, args);
  }

  lemma {:induction false} RawInRange(fragment: seq<Part>, numArgs: nat)
    ensures FirstRawError(fragment, numArgs).None?
       <==> forall part <- fragment :: part.Hole? ==> 1 <= part.k <= numArgs
  {
    if fragment != [] {
      RawInRange(fragment[1..], numArgs);
      assert fragment == [fragment[0]] + fragment[1..];
    }
  }

  lemma ResolveRaw(d: Dialect, fragment: seq<Part>, base: nat, rawArgs: seq<Value>, args: seq<Value>)
    requires d.numbered && Holds(args, base, rawArgs)
    requires FirstRawError(fragment, |rawArgs|).None?
    ensures Resolve(RawText(d, fragment, base), args) == InlineRaw(fragment, rawArgs)
  {
    RawInRange(fragment, |rawArgs|);
    forall i | 0 <= i < |fragment|
      ensures ResolveToken(RawText(d, fragment, base)[i], args) == InlineRaw(fragment, rawArgs)[i]
    {
      assert fragment[i] in fragment;
      if fragment[i].Hole? {
        HoldsAt(args, base, rawArgs, fragment[i].k - 1);
      }
      hide Holds;
    }
    hide Holds, RawText, InlineRaw, ResolveToken, FirstRawError;
    assert Resolve(RawText(d, fragment, base), args) == InlineRaw(fragment, rawArgs);
  }

  lemma ResolveList(d: Dialect, before: seq<Token>, values: seq<Value>, base: nat, args: seq<Value>)
    requires d.numbered && Holds(args, base, values) && Plain(before)
    ensures Resolve(before + Join(Binders(d, |values|, base), Comma) + [RParen], args)
         == before + Join(Literals(values), Comma) + [RParen]
  {
    hide Resolve, Join, Binders;
    var list := Join(Binders(d, |values|, base), Comma);
    ResolveBinders(d, values, base, args);
    ResolveConcat(before + list, [RParen], args);
    ResolveConcat(before, list, args);
    ResolvePlain(before, args);
    ResolvePlain([RParen], args);
  }

  lemma ResolveSimple(d: Dialect, p: Predicate, base: nat, args: seq<Value>)
    requires d.numbered && !p.IsCompound() && !p.Raw? && Holds(args, base, Args(p))
    ensures Resolve(Rendered(d, p, base), args) == Inline(p)
  {
    if p.In? || p.NotIn? {
      hide Resolve, Join, Binders;
      ResolveList(d, if p.In? then [Ident(p.col), KwIn, LParen] else [Ident(p.col), KwNot, KwIn, LParen], p.values, base, args);
      ResolvePlain([if p.In? then KwFalse else KwTrue], args);
    } else {
      hide Join, Binders;
      if p.Compare? || p.NotLike? || p.Between? {
        HoldsAt(args, base, Args(p), 0);
      }
      if p.Between? {
        HoldsAt(args, base, Args(p), 1);
      }
    }
  }

  /**
   Whatever came before and whatever comes after, putting the arguments into the text
   of p gives p with each of its own values in place.
   */
  lemma {:induction false} ResolveRendered(d: Dialect, p: Predicate, base: nat, args: seq<Value>)
    requires d.numbered && FirstError(d, p).None? && Holds(args, base, Args(p))
    ensures Resolve(Rendered(d, p, base), args) == Inline(p)
    decreases p, 0
  {
    match p
    case And(children) =>
      ResolveRenderedAll(d, children, base, args);
      ResolveJoin(RenderedAll(d, children, base), InlineAll(children), KwAnd, args);
    case Or(children) =>
      ResolveRenderedAll(d, children, base, args);
      ResolveJoin(RenderedAll(d, children, base), InlineAll(children), KwOr, args);
    case Not(child) =>
      ResolveRenderedChild(d, child, base, args);
      ResolveConcat([KwNot], RenderedChild(d, child, base), args);
    case Raw(fragment, rawArgs) =>
      ResolveRaw(d, fragment, base, rawArgs, args);
    case _ =>
      ResolveSimple(d, p, base, args);
  }

  lemma {:induction false} ResolveRenderedChild(d: Dialect, p: Predicate, base: nat, args: seq<Value>)
    requires d.numbered && FirstError(d, p).None? && Holds(args, base, Args(p))
    ensures Resolve(RenderedChild(d, p, base), args) == InlineChild(p)
    decreases p, 1
  {
    ResolveRendered(d, p, base, args);
    ResolveConcat([LParen] + Rendered(d, p, base), [RParen], args);
    ResolveConcat([LParen], Rendered(d, p, base), args);
  }

  lemma {:induction false} ResolveRenderedAll(d: Dialect, ps: seq<Predicate>, base: nat, args: seq<Value>)
    requires d.numbered && FirstErrorAmong(d, ps).None? && Holds(args, base, ArgsOf(ps))
    ensures forall i :: 0 <= i < |ps| ==> Resolve(RenderedAll(d, ps, base)[i], args) == InlineAll(ps)[i]
    decreases ps, 0
  {
    if ps != [] {
      HoldsSplit(args, base, Args(ps[0]), ArgsOf(ps[1..]));
      ResolveRenderedChild(d, ps[0], base, args);
      ResolveRenderedAll(d, ps[1..], base + |Args(ps[0])|, args);
    }
  }

  // ----- Positional placeholders -----

  function Holes(fragment: seq<Part>): seq<nat> {
    if fragment == [] then []
    else (if fragment[0].Hole? then [fragment[0].k] else []) + Holes(fragment[1..])
  }

  /** The fragment mentions $1 ... $n once each and in order, n being its argument count. */
  predicate RawCountsUp(fragment: seq<Part>, numArgs: nat) {
    Holes(fragment) == Range(0, numArgs)
  }

  predicate RawsCountUp(p: Predicate)
    decreases p
  {
    match p
    case Raw(fragment, rawArgs) => RawCountsUp(fragment, |rawArgs|)
    case And(children) => RawsCountUpAll(children)
    case Or(children) => RawsCountUpAll(children)
    case Not(child) => RawsCountUp(child)
    case _ => true
  }

  predicate RawsCountUpAll(ps: seq<Predicate>)
    decreases ps
  {
    ps == [] || (RawsCountUp(ps[0]) && RawsCountUpAll(ps[1..]))
  }

  /** All placeholder numbers of the text lie just above base, within the n values bound there. */
  ghost predicate Within(indices: seq<nat>, base: nat, n: nat) {
    forall x <- indices :: base < x <= base + n
  }

  /** A stretch of text binds positionally when its placeholders are base+1 ... base+n in order. */
  ghost predicate CountsUp(ts: seq<Token>, base: nat, n: nat) {
    Indices(ts) == Range(base, n)
  }

  /** The two halves of a text, each numbering its own values, bind positionally together iff each does. */
  lemma CountsUpSplit(a: seq<Token>, b: seq<Token>, base: nat, m: nat, n: nat)
    requires Within(Indices(a), base, m) && Within(Indices(b), base + m, n)
    ensures Within(Indices(a + b), base, m + n)
    ensures CountsUp(a + b, base, m + n) <==> CountsUp(a, base, m) && CountsUp(b, base + m, n)
  {
    IndicesConcat(a, b);
    RangeSplit(Indices(a), Indices(b), base, m, n);
  }

  lemma PlainAround(before: seq<Token>, ts: seq<Token>, after: seq<Token>)
    requires Plain(before) && Plain(after)
    ensures Indices(before + ts + after) == Indices(ts)
  {
    IndicesConcat(before + ts, after);
    IndicesConcat(before, ts);
    IndicesPlain(before);
    IndicesPlain(after);
  }

  lemma {:induction false} IndicesBinders(d: Dialect, n: nat, base: nat)
    requires d.numbered
    ensures Indices(Join(Binders(d, n, base), Comma)) == Range(base, n)
  {
    if n > 0 {
      IndicesBinders(d, n - 1, base + 1);
      var bs := Binders(d, n, base);
      assert bs[1..] == Binders(d, n - 1, base + 1);
      assert Range(base, n) == [base + 1] + Range(base + 1, n - 1);
      assert Indices([Ph(base + 1)]) == [base + 1] + Indices([]);
      if n > 1 {
        IndicesConcat(bs[0] + [Comma], Join(bs[1..], Comma));
        PlainAround([], bs[0], [Comma]);
        assert [] + bs[0] + [Comma] == bs[0] + [Comma];
        assert Join(bs, Comma) == bs[0] + [Comma] + Join(bs[1..], Comma);
        assert bs[0] == [Ph(base + 1)];
      } else {
        assert Join(bs, Comma) == bs[0] == [Ph(base + 1)];
      }
    }
  }

  lemma {:induction false} IndicesRaw(d: Dialect, fragment: seq<Part>, base: nat, n: nat)
    requires d.numbered && FirstRawError(fragment, n).None?
    ensures Within(Indices(RawText(d, fragment, base)), base, n)
    ensures |Indices(RawText(d, fragment, base))| == |Holes(fragment)|
    ensures forall i :: 0 <= i < |Holes(fragment)| ==> Indices(RawText(d, fragment, base))[i] == base + Holes(fragment)[i]
  {
    if fragment != [] {
      IndicesRaw(d, fragment[1..], base, n);
      assert RawText(d, fragment, base)[1..] == RawText(d, fragment[1..], base);
    }
  }

  lemma RawPositional(d: Dialect, fragment: seq<Part>, base: nat, n: nat)
    requires d.numbered && FirstRawError(fragment, n).None?
    ensures CountsUp(RawText(d, fragment, base), base, n) <==> RawCountsUp(fragment, n)
  {
    IndicesRaw(d, fragment, base, n);
    ShiftedRange(Indices(RawText(d, fragment, base)), Holes(fragment), base, n);
    hide Indices, RawText, Holes, Range;
  }

  lemma ShiftedRange(indices: seq<int>, holes: seq<int>, base: nat, n: nat)
    requires |indices| == |holes| && forall i :: 0 <= i < |holes| ==> indices[i] == base + holes[i]
    ensures indices == Range(base, n) <==> holes == Range(0, n)
  {
    assert |indices| == n ==> forall i :: 0 <= i < n ==> (indices[i] == Range(base, n)[i] <==> holes[i] == Range(0, n)[i]);
  }

  lemma IndicesList(d: Dialect, before: seq<Token>, n: nat, base: nat)
    requires d.numbered && Plain(before)
    ensures Indices(before + Join(Binders(d, n, base), Comma) + [RParen]) == Range(base, n)
  {
    IndicesBinders(d, n, base);
    PlainAround(before, Join(Binders(d, n, base), Comma), [RParen]);
  }

  lemma IndicesLast(before: seq<Token>, base: nat)
    requires Plain(before)
    ensures Indices(before + [Ph(base + 1)]) == Range(base, 1)
  {
    IndicesConcat(before, [Ph(base + 1)]);
    IndicesPlain(before);
    assert Indices([Ph(base + 1)]) == [base + 1] + Indices([]);
  }

  /** A comparison, list or constant numbers its own values in order. */
  lemma IndicesAtom(d: Dialect, p: Predicate, base: nat)
    requires d.numbered && !p.IsCompound() && !p.Raw?
    ensures Indices(Rendered(d, p, base)) == Range(base, |Args(p)|)
  {
    match p
    case In(col, values) =>
      if values == [] { IndicesPlain([KwFalse]); } else { IndicesList(d, [Ident(col), KwIn, LParen], |values|, base); }
    case NotIn(col, values) =>
      if values == [] { IndicesPlain([KwTrue]); } else { IndicesList(d, [Ident(col), KwNot, KwIn, LParen], |values|, base); }
    case Compare(op, col, _) =>
      IndicesLast([Ident(col), Sym(op)], base);
      assert [Ident(col), Sym(op)] + [Ph(base + 1)] == Rendered(d, p, base);
    case NotLike(col, _) =>
      IndicesLast([Ident(col), KwNot, Sym(Like)], base);
      assert [Ident(col), KwNot, Sym(Like)] + [Ph(base + 1)] == Rendered(d, p, base);
    case Between(col, _, _) =>
      IndicesLast([Ident(col), KwBetween], base);
      IndicesLast([KwAnd], base + 1);
      IndicesConcat([Ident(col), KwBetween] + [Ph(base + 1)], [KwAnd] + [Ph(base + 2)]);
      assert [Ident(col), KwBetween] + [Ph(base + 1)] + ([KwAnd] + [Ph(base + 2)]) == Rendered(d, p, base);
      assert Range(base, 2) == Range(base, 1) + Range(base + 1, 1);
    case _ =>
      IndicesPlain(Rendered(d, p, base));
  }

  /**
   The text of p binds positionally exactly when every raw fragment in it uses
   $1 ... $n once each, in order.
   */
  lemma {:induction false} PositionalIff(d: Dialect, p: Predicate, base: nat)
    requires d.numbered && FirstError(d, p).None?
    ensures Within(Indices(Rendered(d, p, base)), base, |Args(p)|)
    ensures CountsUp(Rendered(d, p, base), base, |Args(p)|) <==> RawsCountUp(p)
    decreases p, 0
  {
    match p
    case And(children) =>
      if children == [] { IndicesPlain([KwTrue]); } else { PositionalIffAll(d, children, KwAnd, base); }
    case Or(children) =>
      if children == [] { IndicesPlain([KwFalse]); } else { PositionalIffAll(d, children, KwOr, base); }
    case Not(child) =>
      PositionalIffChild(d, child, base);
      PlainAround([KwNot], RenderedChild(d, child, base), []);
      assert [KwNot] + RenderedChild(d, child, base) + [] == Rendered(d, p, base);
    case Raw(fragment, rawArgs) =>
      RawPositional(d, fragment, base, |rawArgs|);
      IndicesRaw(d, fragment, base, |rawArgs|);
    case _ =>
      IndicesAtom(d, p, base);
  }

  lemma {:induction false} PositionalIffChild(d: Dialect, p: Predicate, base: nat)
    requires d.numbered && FirstError(d, p).None?
    ensures Within(Indices(RenderedChild(d, p, base)), base, |Args(p)|)
    ensures CountsUp(RenderedChild(d, p, base), base, |Args(p)|) <==> RawsCountUp(p)
    decreases p, 1
  {
    PositionalIff(d, p, base);
    PlainAround([LParen], Rendered(d, p, base), [RParen]);
  }

  lemma SeparatorPlain(ts: seq<Token>, separator: Token, base: nat, m: nat)
    requires !IsBinder(separator)
    ensures Within(Indices(ts + [separator]), base, m) <==> Within(Indices(ts), base, m)
    ensures CountsUp(ts + [separator], base, m) <==> CountsUp(ts, base, m)
  {
    PlainAround([], ts, [separator]);
    assert [] + ts + [separator] == ts + [separator];
  }

  lemma {:induction false} PositionalIffAll(d: Dialect, ps: seq<Predicate>, separator: Token, base: nat)
    requires d.numbered && FirstErrorAmong(d, ps).None? && ps != [] && !IsBinder(separator)
    ensures Within(Indices(Join(RenderedAll(d, ps, base), separator)), base, |ArgsOf(ps)|)
    ensures CountsUp(Join(RenderedAll(d, ps, base), separator), base, |ArgsOf(ps)|) <==> RawsCountUpAll(ps)
    decreases ps, 0
  {
    var first, m := RenderedChild(d, ps[0], base), |Args(ps[0])|;
    PositionalIffChild(d, ps[0], base);
    hide Within, CountsUp, RenderedChild, Indices, Args;
    var parts := RenderedAll(d, ps, base);
    assert parts[1..] == RenderedAll(d, ps[1..], base + m);
    if |ps| == 1 {
      assert ps[1..] == [];
      assert Join(parts, separator) == first;
    } else {
      PositionalIffAll(d, ps[1..], separator, base + m);
      SeparatorPlain(first, separator, base, m);
      CountsUpSplit(first + [separator], Join(parts[1..], separator), base, m, |ArgsOf(ps[1..])|);
    }
  }

  // ----- The two spellings of one text -----

  lemma SameShapeConcat(p1: seq<Token>, n1: seq<Token>, p2: seq<Token>, n2: seq<Token>)
    requires SameShape(p1, n1) && SameShape(p2, n2)
    ensures SameShape(p1 + p2, n1 + n2)
  {
  }

  lemma {:induction false} SameShapeJoin(ps: seq<seq<Token>>, ns: seq<seq<Token>>, separator: Token)
    requires |ps| == |ns| && !IsBinder(separator)
    requires forall i :: 0 <= i < |ps| ==> SameShape(ps[i], ns[i])
    ensures SameShape(Join(ps, separator), Join(ns, separator))
    decreases |ps|
  {
    if |ps| > 1 {
      SameShapeJoin(ps[1..], ns[1..], separator);
      SameShapeConcat(ps[0], ns[0], [separator], [separator]);
      SameShapeConcat(ps[0] + [separator], ns[0] + [separator], Join(ps[1..], separator), Join(ns[1..], separator));
    }
  }

  lemma SameShapeBinders(d: Dialect, n: nat, base: nat)
    ensures SameShape(Join(Binders(d.(numbered := false), n, base), Comma), Join(Binders(d.(numbered := true), n, base), Comma))
  {
    var ps, ns := Binders(d.(numbered := false), n, base), Binders(d.(numbered := true), n, base);
    forall i | 0 <= i < n
      ensures SameShape(ps[i], ns[i])
    {
      assert ps[i] == [Mark] && ns[i] == [Ph(base + i + 1)];
    }
    SameShapeJoin(ps, ns, Comma);
  }

  lemma SameShapeAround(before: seq<Token>, p: seq<Token>, n: seq<Token>, after: seq<Token>)
    requires Plain(before) && Plain(after) && SameShape(p, n)
    ensures SameShape(before + p + after, before + n + after)
  {
    forall i | 0 <= i < |before|
      ensures !before[i].Ph? && !before[i].Mark?
    {
      assert before[i] in before;
    }
    forall i | 0 <= i < |after|
      ensures !after[i].Ph? && !after[i].Mark?
    {
      assert after[i] in after;
    }
    SameShapeConcat(before, before, p, n);
    SameShapeConcat(before + p, before + n, after, after);
  }

  lemma SameShapeAtom(d: Dialect, p: Predicate, base: nat)
    requires !p.IsCompound()
    ensures SameShape(Rendered(d.(numbered := false), p, base), Rendered(d.(numbered := true), p, base))
  {
    if p.In? || p.NotIn? {
      hide Rendered, Join, Binders;
      SameShapeList(d, p, base);
    } else {
      hide Join, Binders;
    }
  }

  lemma SameShapeList(d: Dialect, p: Predicate, base: nat)
    requires p.In? || p.NotIn?
    ensures SameShape(Rendered(d.(numbered := false), p, base), Rendered(d.(numbered := true), p, base))
  {
    hide Join, Binders;
    if p.values != [] {
      var before := if p.In? then [Ident(p.col), KwIn, LParen] else [Ident(p.col), KwNot, KwIn, LParen];
      var list, numbered := Binders(d.(numbered := false), |p.values|, base), Binders(d.(numbered := true), |p.values|, base);
      SameShapeBinders(d, |p.values|, base);
      SameShapeAround(before, Join(list, Comma), Join(numbered, Comma), [RParen]);
    }
  }

  lemma {:induction false} SameShapeRendered(d: Dialect, p: Predicate, base: nat)
    ensures SameShape(Rendered(d.(numbered := false), p, base), Rendered(d.(numbered := true), p, base))
    decreases p, 0
  {
    var m, n := d.(numbered := false), d.(numbered := true);
    match p
    case And(children) =>
      SameShapeAll(d, children, base);
      SameShapeJoin(RenderedAll(m, children, base), RenderedAll(n, children, base), KwAnd);
    case Or(children) =>
      SameShapeAll(d, children, base);
      SameShapeJoin(RenderedAll(m, children, base), RenderedAll(n, children, base), KwOr);
    case Not(child) =>
      SameShapeChild(d, child, base);
      SameShapeConcat([KwNot], [KwNot], RenderedChild(m, child, base), RenderedChild(n, child, base));
    case _ =>
      SameShapeAtom(d, p, base);
  }

  lemma {:induction false} SameShapeChild(d: Dialect, p: Predicate, base: nat)
    ensures SameShape(RenderedChild(d.(numbered := false), p, base), RenderedChild(d.(numbered := true), p, base))
    decreases p, 1
  {
    SameShapeRendered(d, p, base);
    var m, n := d.(numbered := false), d.(numbered := true);
    SameShapeAround([LParen], Rendered(m, p, base), Rendered(n, p, base), [RParen]);
  }

  lemma {:induction false} SameShapeAll(d: Dialect, ps: seq<Predicate>, base: nat)
    ensures forall i :: 0 <= i < |ps| ==>
      SameShape(RenderedAll(d.(numbered := false), ps, base)[i], RenderedAll(d.(numbered := true), ps, base)[i])
    decreases ps, 0
  {
    if ps != [] {
      SameShapeChild(d, ps[0], base);
      SameShapeAll(d, ps[1..], base + |Args(ps[0])|);
    }
  }

  // ----- Which trees render at all -----

  /** q is p, or somewhere below it. */
  ghost predicate Occurs(q: Predicate, p: Predicate)
    decreases p
  {
    q == p ||
    match p
    case And(children) => exists c <- children :: Occurs(q, c)
    case Or(children) => exists c <- children :: Occurs(q, c)
    case Not(child) => Occurs(q, child)
    case _ => false
  }

  /** One node alone cannot be rendered: an ILIKE the dialect lacks, or a raw placeholder with no argument. */
  ghost predicate Refused(d: Dialect, q: Predicate, e: RenderError) {
    || (q.Compare? && q.op == ILike && !d.iLike && e == ILikeUnsupported)
    || (q.Raw? && exists k: nat :: Hole(k) in q.fragment && !(1 <= k <= |q.rawArgs|) && e == RawPlaceholderOutOfRange(k, |q.rawArgs|))
  }

  /** Every ILIKE is one the dialect has, and every raw placeholder has its argument. */
  ghost predicate Renderable(d: Dialect, p: Predicate) {
    forall q :: Occurs(q, p) ==>
      && (q.Compare? && q.op == ILike ==> d.iLike)
      && (q.Raw? ==> forall k: nat :: Hole(k) in q.fragment ==> 1 <= k <= |q.rawArgs|)
  }

  ghost predicate UsesILike(p: Predicate) {
    exists q :: Occurs(q, p) && q.Compare? && q.op == ILike
  }

  ghost predicate UsesRaw(p: Predicate) {
    exists q :: Occurs(q, p) && q.Raw?
  }

  lemma {:induction false} RawRefused(d: Dialect, fragment: seq<Part>, args: seq<Value>)
    ensures FirstRawError(fragment, |args|).None? <==> forall k: nat :: Hole(k) in fragment ==> 1 <= k <= |args|
    ensures FirstRawError(fragment, |args|).Some? ==> Refused(d, Raw(fragment, args), FirstRawError(fragment, |args|).value)
    decreases |fragment|
  {
    if fragment != [] {
      RawRefused(d, fragment[1..], args);
      assert forall k: nat :: Hole(k) in fragment <==> Hole(k) == fragment[0] || Hole(k) in fragment[1..];
      if fragment[0].Hole? && !(1 <= fragment[0].k <= |args|) {
        assert Hole(fragment[0].k) in fragment;
      }
    }
  }

  /** Rendering stops at a node that cannot be rendered, and goes through only if there is none. */
  lemma {:induction false} FirstErrorFound(d: Dialect, p: Predicate)
    ensures FirstError(d, p).Some? ==> exists q :: Occurs(q, p) && Refused(d, q, FirstError(d, p).value)
    ensures FirstError(d, p).None? ==> Renderable(d, p)
    decreases p, 0
  {
    match p
    case Raw(fragment, rawArgs) =>
      RawRefused(d, fragment, rawArgs);
      assert Occurs(p, p);
    case And(children) => FirstErrorAmongFound(d, children);
    case Or(children) => FirstErrorAmongFound(d, children);
    case Not(child) => FirstErrorFound(d, child);
    case _ => assert Occurs(p, p);
  }

  lemma {:induction false} FirstErrorAmongFound(d: Dialect, ps: seq<Predicate>)
    ensures FirstErrorAmong(d, ps).Some? ==> exists c, q :: c in ps && Occurs(q, c) && Refused(d, q, FirstErrorAmong(d, ps).value)
    ensures FirstErrorAmong(d, ps).None? ==> forall c <- ps :: Renderable(d, c)
    decreases ps, 0
  {
    if ps != [] {
      FirstErrorFound(d, ps[0]);
      FirstErrorAmongFound(d, ps[1..]);
      hide Refused, Renderable, FirstError;
      assert ps[0] in ps && forall c :: c in ps <==> c == ps[0] || c in ps[1..];
    }
  }

  /** In a fragment standing in place each chunk is as written and each placeholder is the argument it names. */
  ghost predicate Filled(fragment: seq<Part>, args: seq<Value>, text: seq<Token>) {
    && |text| == |fragment|
    && forall i :: 0 <= i < |text| ==>
         match fragment[i]
         case Chunk(s) => text[i] == Own(s)
         case Hole(k) => 1 <= k <= |args| ==> text[i] == Lit(args[k - 1])
  }

  /** So a raw condition, rendered after any arguments and executed, has its own arguments in its own places. */
  lemma RawFilled(d: Dialect, fragment: seq<Part>, rawArgs: seq<Value>, base: nat, args: seq<Value>)
    requires d.numbered && Renderable(d, Raw(fragment, rawArgs)) && Holds(args, base, rawArgs)
    ensures Filled(fragment, rawArgs, Resolve(Rendered(d, Raw(fragment, rawArgs), base), args))
  {
    RendersIff(d, Raw(fragment, rawArgs));
    ResolveRendered(d, Raw(fragment, rawArgs), base, args);
  }

  /** A tree renders if and only if no node of it is refused, and the error is that of a node which is. */
  lemma RendersIff(d: Dialect, p: Predicate)
    ensures FirstError(d, p).None? <==> Renderable(d, p)
    ensures FirstError(d, p).Some? ==> exists q :: Occurs(q, p) && Refused(d, q, FirstError(d, p).value)
    ensures !UsesRaw(p) ==> (FirstError(d, p).None? <==> d.iLike || !UsesILike(p))
  {
    FirstErrorFound(d, p);
    hide Occurs, FirstError;
  }
}
