/** What SQL makes of a predicate's text, and the proof that it is what the predicate tree means. */
module SqlMeaning {
  import opened SqlText
  import opened Predicates

  // SQL reads NOT over AND over OR, and BETWEEN owns its AND; truth has three values.

  datatype Tri = True | False | Unknown

  function And3(a: Tri, b: Tri): Tri {
    if a.False? || b.False? then False else if a.True? && b.True? then True else Unknown
  }

  function Or3(a: Tri, b: Tri): Tri {
    if a.True? || b.True? then True else if a.False? && b.False? then False else Unknown
  }

  function Not3(a: Tri): Tri {
    match a case True => False case False => True case Unknown => Unknown
  }

  /** One table row, and how the engine compares two values. */
  datatype World = World(row: Column -> Value, compare: (Op, Value, Value) -> Tri)

  // ----- The meaning of a tree, without any text -----

  predicate RawFree(p: Predicate)
    decreases p
  {
    match p
    case Raw(_, _) => false
    case And(children) => forall c <- children :: RawFree(c)
    case Or(children) => forall c <- children :: RawFree(c)
    case Not(child) => RawFree(child)
    case _ => true
  }

  function AnyEqual(x: Value, values: seq<Value>, w: World): Tri {
    if values == [] then False else Or3(w.compare(Eq, x, values[0]), AnyEqual(x, values[1..], w))
  }

  function Meaning(p: Predicate, w: World): Tri
    requires RawFree(p)
    decreases p
  {
    match p
    case NoCondition => True
    case Compare(op, col, arg) => w.compare(op, w.row(col), arg)
    case NotLike(col, pattern) => Not3(w.compare(Like, w.row(col), pattern))
    case In(col, values) => AnyEqual(w.row(col), values, w)
    case NotIn(col, values) => Not3(AnyEqual(w.row(col), values, w))
    case IsNull(col) => if w.row(col).Null? then True else False
    case IsNotNull(col) => if w.row(col).Null? then False else True
    case Between(col, lo, hi) => And3(w.compare(Gte, w.row(col), lo), w.compare(Lte, w.row(col), hi))
    case And(children) => MeaningOfAll(children, w)
    case Or(children) => MeaningOfAny(children, w)
    case Not(child) => Not3(Meaning(child, w))
    case EqCol(left, right) => w.compare(Eq, w.row(left), w.row(right))
  }

  function MeaningOfAll(ps: seq<Predicate>, w: World): Tri
    requires forall c <- ps :: RawFree(c)
    decreases ps
  {
    if ps == [] then True else And3(Meaning(ps[0], w), MeaningOfAll(ps[1..], w))
  }

  function MeaningOfAny(ps: seq<Predicate>, w: World): Tri
    requires forall c <- ps :: RawFree(c)
    decreases ps
  {
    if ps == [] then False else Or3(Meaning(ps[0], w), MeaningOfAny(ps[1..], w))
  }

  // ----- SQL expressions, their parser and their evaluator -----

  datatype Operand = OpColumn(c: Column) | OpLiteral(v: Value)

  datatype Expr =
    | Constant(t: Tri)
    | Comparison(op: Op, left: Operand, right: Operand)
    | Membership(left: Operand, list: seq<Operand>)
    | NullTest(left: Operand)
    | RangeTest(left: Operand, lo: Operand, hi: Operand)
    | Both(a: Expr, b: Expr)
    | Either(a: Expr, b: Expr)
    | Negation(a: Expr)

  function OperandValue(o: Operand, w: World): Value {
    match o case OpColumn(c) => w.row(c) case OpLiteral(v) => v
  }

  function ListValues(os: seq<Operand>, w: World): seq<Value> {
    if os == [] then [] else [OperandValue(os[0], w)] + ListValues(os[1..], w)
  }

  function Eval(e: Expr, w: World): Tri {
    match e
    case Constant(t) => t
    case Comparison(op, l, r) => w.compare(op, OperandValue(l, w), OperandValue(r, w))
    case Membership(l, list) => AnyEqual(OperandValue(l, w), ListValues(list, w), w)
    case NullTest(l) => if OperandValue(l, w).Null? then True else False
    case RangeTest(x, lo, hi) =>
      And3(w.compare(Gte, OperandValue(x, w), OperandValue(lo, w)), w.compare(Lte, OperandValue(x, w), OperandValue(hi, w)))
    case Both(a, b) => And3(Eval(a, w), Eval(b, w))
    case Either(a, b) => Or3(Eval(a, w), Eval(b, w))
    case Negation(a) => Not3(Eval(a, w))
  }

  /** A parsed prefix and the tokens left after it. */
  datatype Parse<+T> = NoParse | Parsed(node: T, rest: seq<Token>)

  function ParseOperand(ts: seq<Token>): (r: Parse<Operand>)
    ensures r.Parsed? ==> |r.rest| < |ts|
  {
    if ts == [] then NoParse
    else match ts[0]
      case Ident(c) => Parsed(OpColumn(c), ts[1..])
      case Lit(v) => Parsed(OpLiteral(v), ts[1..])
      case _ => NoParse
  }

  /** The operands of an IN list, up to and including its closing parenthesis. */
  function ParseList(ts: seq<Token>): (r: Parse<seq<Operand>>)
    ensures r.Parsed? ==> |r.rest| < |ts|
    decreases |ts|
  {
    match ParseOperand(ts)
    case NoParse => NoParse
    case Parsed(o, rest) =>
      if rest == [] then NoParse
      else if rest[0].RParen? then Parsed([o], rest[1..])
      else if rest[0].Comma? then
        match ParseList(rest[1..])
        case NoParse => NoParse
        case Parsed(os, after) => Parsed([o] + os, after)
      else NoParse
  }

  /** What follows the left operand of a simple condition. */
  function ParseTail(x: Operand, ts: seq<Token>): (r: Parse<Expr>)
    ensures r.Parsed? ==> |r.rest| < |ts|
  {
    if ts == [] then NoParse
    else match ts[0]
      case Sym(op) =>
        (match ParseOperand(ts[1..])
         case NoParse => NoParse
         case Parsed(y, rest) => Parsed(Comparison(op, x, y), rest))
      case KwIn =>
        if |ts| >= 2 && ts[1].LParen? then
          match ParseList(ts[2..])
          case NoParse => NoParse
          case Parsed(os, rest) => Parsed(Membership(x, os), rest)
        else NoParse
      case KwBetween =>
        (match ParseOperand(ts[1..])
         case NoParse => NoParse
         case Parsed(lo, rest) =>
           if rest == [] || !rest[0].KwAnd? then NoParse
           else match ParseOperand(rest[1..])
             case NoParse => NoParse
             case Parsed(hi, after) => Parsed(RangeTest(x, lo, hi), after))
      case KwIs =>
        if |ts| >= 2 && ts[1].KwNull? then Parsed(NullTest(x), ts[2..])
        else if |ts| >= 3 && ts[1].KwNot? && ts[2].KwNull? then Parsed(Negation(NullTest(x)), ts[3..])
        else NoParse
      case _ => NoParse
  }

  function ParsePrimary(ts: seq<Token>): (r: Parse<Expr>)
    ensures r.Parsed? ==> |r.rest| < |ts|
    decreases |ts|, 0
  {
    if ts == [] then NoParse
    else if ts[0].KwTrue? then Parsed(Constant(True), ts[1..])
    else if ts[0].KwFalse? then Parsed(Constant(False), ts[1..])
    else if ts[0].LParen? then
      match ParseOr(ts[1..])
      case NoParse => NoParse
      case Parsed(e, rest) => if rest != [] && rest[0].RParen? then Parsed(e, rest[1..]) else NoParse
    else
      match ParseOperand(ts)
      case NoParse => NoParse
      case Parsed(x, rest) =>
        // "x NOT LIKE ..." and "x NOT IN ...": the inner NOT belongs to the operator
        if |rest| >= 2 && rest[0].KwNot? && (rest[1].KwIn? || rest[1] == Sym(Like)) then
          match ParseTail(x, rest[1..])
          case NoParse => NoParse
          case Parsed(e, after) => Parsed(Negation(e), after)
        else ParseTail(x, rest)
  }

  function ParseNot(ts: seq<Token>): (r: Parse<Expr>)
    ensures r.Parsed? ==> |r.rest| < |ts|
    decreases |ts|, 1
  {
    if ts != [] && ts[0].KwNot? then
      match ParseNot(ts[1..])
      case NoParse => NoParse
      case Parsed(e, rest) => Parsed(Negation(e), rest)
    else ParsePrimary(ts)
  }

  /** AND and OR chains are read to the right; both operators are associative. */
  function ParseAnd(ts: seq<Token>): (r: Parse<Expr>)
    ensures r.Parsed? ==> |r.rest| < |ts|
    decreases |ts|, 2
  {
    match ParseNot(ts)
    case NoParse => NoParse
    case Parsed(a, rest) =>
      if rest != [] && rest[0].KwAnd? then
        match ParseAnd(rest[1..])
        case NoParse => NoParse
        case Parsed(b, after) => Parsed(Both(a, b), after)
      else Parsed(a, rest)
  }

  function ParseOr(ts: seq<Token>): (r: Parse<Expr>)
    ensures r.Parsed? ==> |r.rest| < |ts|
    decreases |ts|, 3
  {
    match ParseAnd(ts)
    case NoParse => NoParse
    case Parsed(a, rest) =>
      if rest != [] && rest[0].KwOr? then
        match ParseOr(rest[1..])
        case NoParse => NoParse
        case Parsed(b, after) => Parsed(Either(a, b), after)
      else Parsed(a, rest)
  }

  // ----- The expression a tree's text parses to -----

  function LiteralOperands(values: seq<Value>): seq<Operand> {
    if values == [] then [] else [OpLiteral(values[0])] + LiteralOperands(values[1..])
  }

  function ExprOf(p: Predicate): Expr
    requires RawFree(p)
    decreases p
  {
    match p
    case NoCondition => Constant(True)
    case Compare(op, col, arg) => Comparison(op, OpColumn(col), OpLiteral(arg))
    case NotLike(col, pattern) => Negation(Comparison(Like, OpColumn(col), OpLiteral(pattern)))
    case In(col, values) =>
      if values == [] then Constant(False) else Membership(OpColumn(col), LiteralOperands(values))
    case NotIn(col, values) =>
      if values == [] then Constant(True) else Negation(Membership(OpColumn(col), LiteralOperands(values)))
    case IsNull(col) => NullTest(OpColumn(col))
    case IsNotNull(col) => Negation(NullTest(OpColumn(col)))
    case Between(col, lo, hi) => RangeTest(OpColumn(col), OpLiteral(lo), OpLiteral(hi))
    case And(children) => if children == [] then Constant(True) else AllOf(children)
    case Or(children) => if children == [] then Constant(False) else AnyOf(children)
    case Not(child) => Negation(ExprOf(child))
    case EqCol(left, right) => Comparison(Eq, OpColumn(left), OpColumn(right))
  }

  function AllOf(ps: seq<Predicate>): Expr
    requires ps != [] && forall c <- ps :: RawFree(c)
    decreases ps
  {
    if |ps| == 1 then ExprOf(ps[0]) else Both(ExprOf(ps[0]), AllOf(ps[1..]))
  }

  function AnyOf(ps: seq<Predicate>): Expr
    requires ps != [] && forall c <- ps :: RawFree(c)
    decreases ps
  {
    if |ps| == 1 then ExprOf(ps[0]) else Either(ExprOf(ps[0]), AnyOf(ps[1..]))
  }

  /** No token that would continue an AND or OR chain. */
  predicate Closed(rest: seq<Token>) {
    rest == [] || !(rest[0].KwAnd? || rest[0].KwOr?)
  }

  lemma OperandFirst(t: Token, rest: seq<Token>)
    requires t.Ident? || t.Lit?
    ensures ParseOperand([t] + rest) == Parsed(if t.Ident? then OpColumn(t.c) else OpLiteral(t.v), rest)
  {
    assert ([t] + rest)[1..] == rest;
  }

  lemma {:induction false} ListParses(values: seq<Value>, rest: seq<Token>)
    requires values != []
    ensures ParseList(Join(Literals(values), Comma) + [RParen] + rest) == Parsed(LiteralOperands(values), rest)
    decreases |values|
  {
    var lits := Literals(values);
    var ts := Join(lits, Comma) + [RParen] + rest;
    assert lits[0] == [Lit(values[0])];
    if |values| == 1 {
      OperandFirst(Lit(values[0]), [RParen] + rest);
      assert ts == [Lit(values[0])] + ([RParen] + rest);
      assert ([RParen] + rest)[1..] == rest;
      assert values[1..] == [];
      assert LiteralOperands(values) == [OpLiteral(values[0])];
    } else {
      ListParses(values[1..], rest);
      assert lits[1..] == Literals(values[1..]);
      var more := Join(Literals(values[1..]), Comma) + [RParen] + rest;
      assert ts == [Lit(values[0]), Comma] + more;
      assert ts[1..][1..] == more;
    }
  }

  lemma ComparisonParses(x: Operand, op: Op, t: Token, rest: seq<Token>)
    requires t.Ident? || t.Lit?
    ensures ParseTail(x, [Sym(op), t] + rest)
         == Parsed(Comparison(op, x, if t.Ident? then OpColumn(t.c) else OpLiteral(t.v)), rest)
  {
    OperandFirst(t, rest);
    assert ([Sym(op), t] + rest)[1..] == [t] + rest;
  }

  lemma MembershipParses(x: Operand, values: seq<Value>, rest: seq<Token>)
    requires values != []
    ensures ParseTail(x, [KwIn, LParen] + Join(Literals(values), Comma) + [RParen] + rest)
         == Parsed(Membership(x, LiteralOperands(values)), rest)
  {
    ListParses(values, rest);
    var list := Join(Literals(values), Comma) + [RParen] + rest;
    var ts := [KwIn, LParen] + Join(Literals(values), Comma) + [RParen] + rest;
    assert ts == [KwIn, LParen] + list;
    assert ts[2..] == list;
  }

  lemma RangeParses(x: Operand, lo: Value, hi: Value, rest: seq<Token>)
    ensures ParseTail(x, [KwBetween, Lit(lo), KwAnd, Lit(hi)] + rest)
         == Parsed(RangeTest(x, OpLiteral(lo), OpLiteral(hi)), rest)
  {
    var ts := [KwBetween, Lit(lo), KwAnd, Lit(hi)] + rest;
    var afterLo := [KwAnd, Lit(hi)] + rest;
    assert ts[1..] == [Lit(lo)] + afterLo;
    OperandFirst(Lit(lo), afterLo);
    assert afterLo[1..] == [Lit(hi)] + rest;
    OperandFirst(Lit(hi), rest);
  }

  lemma ColumnFirst(c: Column, tail: seq<Token>)
    requires |tail| >= 2 && !tail[0].KwNot?
    ensures ParsePrimary([Ident(c)] + tail) == ParseTail(OpColumn(c), tail)
  {
    OperandFirst(Ident(c), tail);
  }

  lemma NegatedColumnFirst(c: Column, tail: seq<Token>)
    requires tail != [] && (tail[0].KwIn? || tail[0] == Sym(Like))
    ensures ParsePrimary([Ident(c)] + ([KwNot] + tail))
         == match ParseTail(OpColumn(c), tail) case NoParse => NoParse case Parsed(e, rest) => Parsed(Negation(e), rest)
  {
    OperandFirst(Ident(c), [KwNot] + tail);
    assert ([KwNot] + tail)[1..] == tail;
  }

  lemma ComparisonAtom(c: Column, op: Op, t: Token, rest: seq<Token>)
    requires t.Ident? || t.Lit?
    ensures ParsePrimary([Ident(c), Sym(op), t] + rest)
         == Parsed(Comparison(op, OpColumn(c), if t.Ident? then OpColumn(t.c) else OpLiteral(t.v)), rest)
  {
    ComparisonParses(OpColumn(c), op, t, rest);
    ColumnFirst(c, [Sym(op), t] + rest);
    assert [Ident(c), Sym(op), t] + rest == [Ident(c)] + ([Sym(op), t] + rest);
  }

  lemma ListAtom(c: Column, values: seq<Value>, rest: seq<Token>)
    requires values != []
    ensures ParsePrimary([Ident(c), KwIn, LParen] + Join(Literals(values), Comma) + [RParen] + rest)
         == Parsed(Membership(OpColumn(c), LiteralOperands(values)), rest)
  {
    var list := Join(Literals(values), Comma);
    var tail := [KwIn, LParen] + list + [RParen] + rest;
    MembershipParses(OpColumn(c), values, rest);
    ColumnFirst(c, tail);
    assert [Ident(c), KwIn, LParen] + list + [RParen] + rest == [Ident(c)] + tail;
  }

  lemma NotBefore(c: Column, list: seq<Token>, rest: seq<Token>)
    ensures [Ident(c), KwNot, KwIn, LParen] + list + [RParen] + rest == [Ident(c)] + ([KwNot] + ([KwIn, LParen] + list + [RParen] + rest))
  {
  }

  lemma NotListAtom(c: Column, values: seq<Value>, rest: seq<Token>)
    requires values != []
    ensures ParsePrimary([Ident(c), KwNot, KwIn, LParen] + Join(Literals(values), Comma) + [RParen] + rest)
         == Parsed(Negation(Membership(OpColumn(c), LiteralOperands(values))), rest)
  {
    var list := Join(Literals(values), Comma);
    var tail := [KwIn, LParen] + list + [RParen] + rest;
    MembershipParses(OpColumn(c), values, rest);
    NegatedColumnFirst(c, tail);
    NotBefore(c, list, rest);
    hide Join, Literals, ParsePrimary, LiteralOperands;
  }

  lemma NullAtom(c: Column, rest: seq<Token>)
    ensures ParsePrimary([Ident(c), KwIs, KwNull] + rest) == Parsed(NullTest(OpColumn(c)), rest)
    ensures ParsePrimary([Ident(c), KwIs, KwNot, KwNull] + rest) == Parsed(Negation(NullTest(OpColumn(c))), rest)
  {
    ColumnFirst(c, [KwIs, KwNull] + rest);
    assert [Ident(c), KwIs, KwNull] + rest == [Ident(c)] + ([KwIs, KwNull] + rest);
    assert ([KwIs, KwNull] + rest)[2..] == rest;
    ColumnFirst(c, [KwIs, KwNot, KwNull] + rest);
    assert [Ident(c), KwIs, KwNot, KwNull] + rest == [Ident(c)] + ([KwIs, KwNot, KwNull] + rest);
    assert ([KwIs, KwNot, KwNull] + rest)[3..] == rest;
  }

  lemma ConstantAtom(value: bool, rest: seq<Token>)
    ensures ParsePrimary([if value then KwTrue else KwFalse] + rest) == Parsed(Constant(if value then True else False), rest)
  {
    assert ([if value then KwTrue else KwFalse] + rest)[1..] == rest;
  }

  lemma NotLikeAtom(c: Column, pattern: Value, rest: seq<Token>)
    ensures ParsePrimary([Ident(c), KwNot, Sym(Like), Lit(pattern)] + rest)
         == Parsed(Negation(Comparison(Like, OpColumn(c), OpLiteral(pattern))), rest)
  {
    var tail := [Sym(Like), Lit(pattern)] + rest;
    ComparisonParses(OpColumn(c), Like, Lit(pattern), rest);
    NegatedColumnFirst(c, tail);
    assert [Ident(c), KwNot, Sym(Like), Lit(pattern)] + rest == [Ident(c)] + ([KwNot] + tail);
  }

  lemma RangeAtom(c: Column, lo: Value, hi: Value, rest: seq<Token>)
    ensures ParsePrimary([Ident(c), KwBetween, Lit(lo), KwAnd, Lit(hi)] + rest)
         == Parsed(RangeTest(OpColumn(c), OpLiteral(lo), OpLiteral(hi)), rest)
  {
    var tail := [KwBetween, Lit(lo), KwAnd, Lit(hi)] + rest;
    RangeParses(OpColumn(c), lo, hi, rest);
    ColumnFirst(c, tail);
    assert [Ident(c), KwBetween, Lit(lo), KwAnd, Lit(hi)] + rest == [Ident(c)] + tail;
  }

  /** A simple condition is read as a whole, whatever follows it. */
  lemma AtomParses(p: Predicate, rest: seq<Token>)
    requires RawFree(p) && !p.IsCompound()
    ensures ParsePrimary(Inline(p) + rest) == Parsed(ExprOf(p), rest)
  {
    hide ParsePrimary, LiteralOperands, Join;
    match p
    case In(col, values) =>
      if values != [] { ListAtom(col, values, rest); } else { ConstantAtom(false, rest); }
    case NotIn(col, values) =>
      if values != [] { NotListAtom(col, values, rest); } else { ConstantAtom(true, rest); }
    case Compare(op, col, arg) =>
      ComparisonAtom(col, op, Lit(arg), rest);
    case EqCol(left, right) =>
      ComparisonAtom(left, Eq, Ident(right), rest);
    case NotLike(col, pattern) =>
      NotLikeAtom(col, pattern, rest);
    case IsNull(col) =>
      NullAtom(col, rest);
    case IsNotNull(col) =>
      NullAtom(col, rest);
    case Between(col, lo, hi) =>
      RangeAtom(col, lo, hi, rest);
    case NoCondition =>
      ConstantAtom(true, rest);
  }

  lemma {:induction false} ChildParses(p: Predicate, rest: seq<Token>)
    requires RawFree(p)
    ensures ParseNot(InlineChild(p) + rest) == Parsed(ExprOf(p), rest)
    decreases p, 1
  {
    var ts := InlineChild(p) + rest;
    if p.IsCompound() {
      TextParses(p, [RParen] + rest);
      assert ts == [LParen] + (Inline(p) + ([RParen] + rest));
      assert ts[1..] == Inline(p) + ([RParen] + rest);
      assert ([RParen] + rest)[1..] == rest;
    } else {
      AtomParses(p, rest);
      AtomStart(p);
    }
  }

  lemma AtomStart(p: Predicate)
    requires RawFree(p) && !p.IsCompound()
    ensures Inline(p) != [] && !Inline(p)[0].KwNot?
  {
  }

  lemma {:induction false} AllParse(ps: seq<Predicate>, rest: seq<Token>)
    requires ps != [] && (forall c <- ps :: RawFree(c)) && Closed(rest)
    ensures ParseAnd(Join(InlineAll(ps), KwAnd) + rest) == Parsed(AllOf(ps), rest)
    decreases ps, 0
  {
    var ts := Join(InlineAll(ps), KwAnd) + rest;
    var first := InlineChild(ps[0]);
    if |ps| == 1 {
      assert InlineAll(ps) == [first];
      ChildParses(ps[0], rest);
    } else {
      var more := Join(InlineAll(ps[1..]), KwAnd) + rest;
      assert InlineAll(ps)[1..] == InlineAll(ps[1..]);
      assert ts == first + ([KwAnd] + more);
      ChildParses(ps[0], [KwAnd] + more);
      AllParse(ps[1..], rest);
      assert ([KwAnd] + more)[1..] == more;
    }
  }

  lemma {:induction false} AnyParse(ps: seq<Predicate>, rest: seq<Token>)
    requires ps != [] && (forall c <- ps :: RawFree(c)) && Closed(rest)
    ensures ParseOr(Join(InlineAll(ps), KwOr) + rest) == Parsed(AnyOf(ps), rest)
    decreases ps, 0
  {
    var ts := Join(InlineAll(ps), KwOr) + rest;
    var first := InlineChild(ps[0]);
    if |ps| == 1 {
      assert InlineAll(ps) == [first];
      ChildParses(ps[0], rest);
    } else {
      var more := Join(InlineAll(ps[1..]), KwOr) + rest;
      assert InlineAll(ps)[1..] == InlineAll(ps[1..]);
      assert ts == first + ([KwOr] + more);
      ChildParses(ps[0], [KwOr] + more);
      AnyParse(ps[1..], rest);
      assert ([KwOr] + more)[1..] == more;
    }
  }

  lemma PrimaryAlone(ts: seq<Token>, e: Expr, rest: seq<Token>)
    requires ts != [] && !ts[0].KwNot? && ParsePrimary(ts) == Parsed(e, rest) && Closed(rest)
    ensures ParseOr(ts) == Parsed(e, rest)
  {
    assert ParseNot(ts) == Parsed(e, rest);
    assert ParseAnd(ts) == Parsed(e, rest);
  }

  lemma AndAlone(ts: seq<Token>, e: Expr, rest: seq<Token>)
    requires ParseAnd(ts) == Parsed(e, rest) && Closed(rest)
    ensures ParseOr(ts) == Parsed(e, rest)
  {
  }

  lemma AtomText(p: Predicate, rest: seq<Token>)
    requires RawFree(p) && !p.IsCompound() && Closed(rest)
    ensures ParseOr(Inline(p) + rest) == Parsed(ExprOf(p), rest)
  {
    AtomParses(p, rest);
    AtomStart(p);
    PrimaryAlone(Inline(p) + rest, ExprOf(p), rest);
  }

  lemma NotAlone(ts: seq<Token>, e: Expr, rest: seq<Token>)
    requires ParseNot(ts) == Parsed(e, rest) && Closed(rest)
    ensures ParseOr([KwNot] + ts) == Parsed(Negation(e), rest)
  {
    assert ([KwNot] + ts)[1..] == ts;
    assert ParseNot([KwNot] + ts) == Parsed(Negation(e), rest);
    assert ParseAnd([KwNot] + ts) == Parsed(Negation(e), rest);
  }

  /**
   The text of a tree, in any place where no AND or OR follows, parses back to
   exactly that tree's expression.
   */
  lemma {:induction false} TextParses(p: Predicate, rest: seq<Token>)
    requires RawFree(p) && Closed(rest)
    ensures ParseOr(Inline(p) + rest) == Parsed(ExprOf(p), rest)
    decreases p, 0
  {
    hide ParseOr, ParseAnd, ParseNot, ParsePrimary, Join, AllOf, AnyOf;
    match p
    case And(children) =>
      if children == [] {
        ConstantAtom(true, rest);
        PrimaryAlone([KwTrue] + rest, Constant(True), rest);
      } else {
        AllParse(children, rest);
        AndAlone(Join(InlineAll(children), KwAnd) + rest, AllOf(children), rest);
      }
    case Or(children) =>
      if children == [] {
        ConstantAtom(false, rest);
        PrimaryAlone([KwFalse] + rest, Constant(False), rest);
      } else {
        AnyParse(children, rest);
      }
    case Not(child) =>
      ChildParses(child, rest);
      NotAlone(InlineChild(child) + rest, ExprOf(child), rest);
      assert Inline(p) + rest == [KwNot] + (InlineChild(child) + rest);
    case _ =>
      AtomText(p, rest);
  }

  // ----- Evaluating that expression gives the tree's meaning -----

  lemma {:induction false} LiteralValues(values: seq<Value>, w: World)
    ensures ListValues(LiteralOperands(values), w) == values
  {
    if values != [] {
      LiteralValues(values[1..], w);
    }
  }

  lemma {:induction false} EvalExprOf(p: Predicate, w: World)
    requires RawFree(p)
    ensures Eval(ExprOf(p), w) == Meaning(p, w)
    decreases p, 0
  {
    match p
    case In(_, values) => LiteralValues(values, w);
    case NotIn(_, values) => LiteralValues(values, w);
    case And(children) => if children != [] { EvalAllOf(children, w); }
    case Or(children) => if children != [] { EvalAnyOf(children, w); }
    case Not(child) => EvalExprOf(child, w);
    case _ =>
  }

  lemma {:induction false} EvalAllOf(ps: seq<Predicate>, w: World)
    requires ps != [] && forall c <- ps :: RawFree(c)
    ensures Eval(AllOf(ps), w) == MeaningOfAll(ps, w)
    decreases ps, 0
  {
    EvalExprOf(ps[0], w);
    if |ps| > 1 {
      EvalAllOf(ps[1..], w);
    } else {
      assert ps[1..] == [];
    }
  }

  lemma {:induction false} EvalAnyOf(ps: seq<Predicate>, w: World)
    requires ps != [] && forall c <- ps :: RawFree(c)
    ensures Eval(AnyOf(ps), w) == MeaningOfAny(ps, w)
    decreases ps, 0
  {
    EvalExprOf(ps[0], w);
    if |ps| > 1 {
      EvalAnyOf(ps[1..], w);
    } else {
      assert ps[1..] == [];
    }
  }

  /**
   The main result: bind the arguments of a raw-free predicate into its text, read the
   text with SQL's precedences, and what it evaluates to is what the tree means. The
   predicate may stand anywhere in a statement where no AND or OR follows, after any
   number of other arguments.
   */
  lemma MeaningPreserved(d: Dialect, p: Predicate, base: nat, args: seq<Value>, rest: seq<Token>, w: World)
    requires RawFree(p) && Renderable(d, p) && d.numbered
    requires Holds(args, base, Args(p)) && Closed(Resolve(rest, args))
    ensures var parsed := ParseOr(Resolve(Rendered(d, p, base) + rest, args));
            && parsed.Parsed?
            && parsed.rest == Resolve(rest, args)
            && Eval(parsed.node, w) == Meaning(p, w)
  {
    RendersIff(d, p);
    ResolveRendered(d, p, base, args);
    ResolveConcat(Rendered(d, p, base), rest, args);
    TextParses(p, Resolve(rest, args));
    EvalExprOf(p, w);
  }
}
