/**
 SQL text as a sequence of tokens, the values bound to it, and what a driver does when it
 puts the two together: a numbered placeholder stands for the argument of that number, a
 positional one for the next argument in line.
 */
module SqlText {
  datatype Value = Null | Int(n: int) | Text(s: string)

  datatype Column = Column(table: string, name: string)

  datatype Table = Table(name: string, alias: string)

  /** The infix comparisons of pack/internal/sqlbuild/render.go. */
  datatype Op = Eq | Ne | Gt | Gte | Lt | Lte | Like | ILike

  datatype Token =
    | Ident(c: Column)
    | Sym(op: Op)
    | Ph(n: nat)        // a numbered placeholder: $n or ?n
    | Mark              // a positional placeholder: ?
    | Lit(v: Value)     // a value written in place; only reference texts contain it
    | KwTrue | KwFalse
    | KwAnd | KwOr | KwNot
    | KwIn | KwIs | KwNull | KwBetween
    | LParen | RParen | Comma
    | Num(value: int)
    | Word(w: string)   // any other keyword
    | Name(id: string)  // a quoted name
    | Own(sql: string)  // a piece of the caller's own SQL, read as one unit

  /** What pack/dialect.Dialect decides about rendering. */
  datatype Dialect = Dialect(
    numbered: bool,
    iLike: bool,
    rowLocking: bool,
    returning: bool,
    onConflict: bool
  )

  function Placeholder(d: Dialect, n: nat): Token {
    if d.numbered then Ph(n) else Mark
  }

  predicate IsBinder(t: Token) {
    t.Ph? || t.Mark?
  }

  predicate Plain(ts: seq<Token>) {
    forall t <- ts :: !IsBinder(t)
  }

  /** A driver with numbered placeholders: Ph(n) stands for the nth argument. */
  function ResolveToken(t: Token, args: seq<Value>): Token {
    if t.Ph? && 1 <= t.n <= |args| then Lit(args[t.n - 1]) else t
  }

  function Resolve(ts: seq<Token>, args: seq<Value>): (r: seq<Token>)
    ensures |r| == |ts|
  {
    seq(|ts|, i requires 0 <= i < |ts| => ResolveToken(ts[i], args))
  }

  lemma ResolveConcat(a: seq<Token>, b: seq<Token>, args: seq<Value>)
    ensures Resolve(a + b, args) == Resolve(a, args) + Resolve(b, args)
  {
  }

  lemma ResolvePlain(ts: seq<Token>, args: seq<Value>)
    requires Plain(ts)
    ensures Resolve(ts, args) == ts
  {
    forall i | 0 <= i < |ts|
      ensures Resolve(ts, args)[i] == ts[i]
    {
      assert ts[i] in ts;
    }
  }

  /** A driver with positional placeholders: the ith marker stands for the ith argument. */
  function NumberMarks(ts: seq<Token>, base: nat): (r: seq<Token>)
    ensures |r| == |ts|
  {
    if ts == [] then []
    else if ts[0].Mark? then [Ph(base + 1)] + NumberMarks(ts[1..], base + 1)
    else [ts[0]] + NumberMarks(ts[1..], base)
  }

  function ResolvePositional(ts: seq<Token>, args: seq<Value>): seq<Token> {
    Resolve(NumberMarks(ts, 0), args)
  }

  /** The placeholder numbers of a text, in the order the text mentions them. */
  function Indices(ts: seq<Token>): seq<nat> {
    if ts == [] then []
    else (if ts[0].Ph? then [ts[0].n] else []) + Indices(ts[1..])
  }

  function Range(lo: nat, n: nat): (r: seq<nat>)
    ensures |r| == n
  {
    seq(n, i requires 0 <= i < n => lo + 1 + i)
  }

  lemma {:induction false} IndicesConcat(a: seq<Token>, b: seq<Token>)
    ensures Indices(a + b) == Indices(a) + Indices(b)
  {
    if a == [] {
      assert a + b == b;
    } else {
      var first := if a[0].Ph? then [a[0].n] else [];
      assert (a + b)[1..] == a[1..] + b;
      IndicesConcat(a[1..], b);
      assert Indices(a + b) == first + (Indices(a[1..]) + Indices(b));
    }
  }

  lemma {:induction false} IndicesPlain(ts: seq<Token>)
    requires Plain(ts)
    ensures Indices(ts) == []
  {
    if ts != [] {
      assert ts[0] in ts;
      assert forall t <- ts[1..] :: t in ts;
      IndicesPlain(ts[1..]);
    }
  }

  /** Two texts that differ only in how they write their placeholders. */
  ghost predicate SameShape(positional: seq<Token>, numbered: seq<Token>) {
    && |positional| == |numbered|
    && forall i :: 0 <= i < |numbered| ==>
         if numbered[i].Ph? then positional[i].Mark? else positional[i] == numbered[i] && !numbered[i].Mark?
  }

  /**
   Counting markers from base reproduces the numbered text exactly when that text
   mentions base+1, base+2, ... once each and in order.
   */
  lemma {:induction false} MarksCountUp(positional: seq<Token>, numbered: seq<Token>, base: nat)
    requires SameShape(positional, numbered)
    ensures NumberMarks(positional, base) == numbered
       <==> Indices(numbered) == Range(base, |Indices(numbered)|)
    decreases |numbered|
  {
    if numbered != [] {
      var p, n := positional[1..], numbered[1..];
      assert SameShape(p, n) by {
        forall i | 0 <= i < |n|
          ensures if n[i].Ph? then p[i].Mark? else p[i] == n[i] && !n[i].Mark?
        {
          assert n[i] == numbered[i + 1] && p[i] == positional[i + 1];
        }
      }
      var here, tail := NumberMarks(positional, base), Indices(n);
      if numbered[0].Ph? {
        MarksCountUp(p, n, base + 1);
        assert here == [Ph(base + 1)] + NumberMarks(p, base + 1);
        assert numbered == [numbered[0]] + n;
        assert here[1..] == NumberMarks(p, base + 1);
        var all := Indices(numbered);
        assert all == [numbered[0].n] + tail;
        assert Range(base, |all|) == [base + 1] + Range(base + 1, |tail|);
        assert all == Range(base, |all|) <==> all[0] == base + 1 && all[1..] == Range(base + 1, |tail|);
        assert all[1..] == tail;
      } else {
        MarksCountUp(p, n, base);
        assert here == [positional[0]] + NumberMarks(p, base);
        assert numbered == [numbered[0]] + n;
        assert here[1..] == NumberMarks(p, base);
        assert Indices(numbered) == tail;
      }
    }
  }

  /**
   The cut behind the positional rule: when one text only mentions numbers up to
   base+m and the next only larger ones, the two together count up from base exactly
   when each counts up over its own range.
   */
  lemma RangeSplit(a: seq<nat>, b: seq<nat>, base: nat, m: nat, n: nat)
    requires forall x <- a :: x <= base + m
    requires forall x <- b :: base + m < x
    ensures a + b == Range(base, m + n) <==> a == Range(base, m) && b == Range(base + m, n)
  {
    var whole := Range(base, m + n);
    assert Range(base, m) + Range(base + m, n) == whole;
    if a + b == whole {
      assert |a| + |b| == m + n;
      if a != [] {
        var last := |a| - 1;
        assert a[last] in a && a[last] == whole[last];
      }
      if b != [] {
        assert b[0] in b && b[0] == whole[|a|];
      }
      assert a == (a + b)[..m] == whole[..m] == Range(base, m);
      assert b == (a + b)[m..] == whole[m..] == Range(base + m, n);
    }
  }
}
