/**
 Environment overrides (settings.go): finding the configuration field a variable's name
 spells, among tags that may be nested and may themselves contain the separator.
 */
module Settings {
  import opened Results

  type Name = seq<string>      // a name cut at its underscores

  /** A configuration value; a field without a tag cannot be named. */
  datatype Node = Scalar(kind: string, value: string) | Struct(fields: seq<Field>)
  datatype Field = Field(tag: Option<Name>, node: Node)

  datatype Candidate = Candidate(idx: nat, consumed: nat)

  predicate Matches(tag: Name, names: Name) {
    |tag| <= |names| && names[..|tag|] == tag
  }

  /** Tags are nonempty, as strings.Split makes them, and the fields of one struct have different ones. */
  ghost predicate WellTagged(node: Node)
    decreases node
  {
    node.Struct? ==>
      && (forall i :: 0 <= i < |node.fields| ==> (node.fields[i].tag.Some? ==> node.fields[i].tag.value != []) && WellTagged(node.fields[i].node))
      && TagsDiffer(node.fields)
  }

  // ----- What a name spells -----

  /** The path through the fields p[0], p[1], ... whose tags, end to end, are names. */
  predicate Spells(node: Node, p: seq<nat>, names: Name)
    decreases |p|
  {
    && p != [] && node.Struct? && p[0] < |node.fields| && node.fields[p[0]].tag.Some?
    && var tag := node.fields[p[0]].tag.value;
       Matches(tag, names) && if |p| == 1 then |tag| == |names| else Spells(node.fields[p[0]].node, p[1..], names[|tag|..])
  }

  /** How much of the name each step of a path takes. */
  function Takes(node: Node, p: seq<nat>): seq<nat>
    decreases |p|
  {
    if p == [] || !node.Struct? || p[0] >= |node.fields| || node.fields[p[0]].tag.None? then []
    else [|node.fields[p[0]].tag.value|] + Takes(node.fields[p[0]].node, p[1..])
  }

  predicate LexLess(a: seq<nat>, b: seq<nat>) {
    a != [] && b != [] && (a[0] < b[0] || (a[0] == b[0] && LexLess(a[1..], b[1..])))
  }

  // ----- The search -----

  function CandidatesFrom(fields: seq<Field>, i: nat, names: Name): (r: seq<Candidate>)
    requires i <= |fields|
    ensures forall c <- r :: i <= c.idx && Fit(fields, names, c)
    decreases |fields| - i
  {
    if i == |fields| then []
    else
      (if fields[i].tag.Some? && Matches(fields[i].tag.value, names) then [Candidate(i, |fields[i].tag.value|)] else [])
      + CandidatesFrom(fields, i + 1, names)
  }

  function Insert(c: Candidate, cs: seq<Candidate>): (r: seq<Candidate>)
    ensures forall x :: x in r <==> x == c || x in cs
  {
    if cs == [] || c.consumed > cs[0].consumed then [c] + cs else [cs[0]] + Insert(c, cs[1..])
  }

  /** sort.Slice, longest match first. */
  function Sorted(cs: seq<Candidate>): (r: seq<Candidate>)
    ensures forall x :: x in r <==> x in cs
  {
    if cs == [] then [] else Insert(cs[0], Sorted(cs[1..]))
  }

  predicate Fit(fields: seq<Field>, names: Name, c: Candidate) {
    c.idx < |fields| && fields[c.idx].tag.Some? && Matches(fields[c.idx].tag.value, names) && c.consumed == |fields[c.idx].tag.value|
  }

  /** The path resolveField ends at. */
  function Choose(node: Node, names: Name): Option<seq<nat>>
    decreases node, 0
  {
    if !node.Struct? || names == [] then None
    else ChooseAmong(node.fields, Sorted(CandidatesFrom(node.fields, 0, names)), names)
  }

  function ChooseAmong(fields: seq<Field>, cs: seq<Candidate>, names: Name): Option<seq<nat>>
    requires forall c <- cs :: Fit(fields, names, c)
    decreases fields, |cs|
  {
    if cs == [] then None
    else
      var c := cs[0];
      assert c in cs && Fit(fields, names, c);
      var rest := names[c.consumed..];
      assert fields decreases to fields[c.idx];
      if rest == [] then Some([c.idx])
      else
        match Choose(fields[c.idx].node, rest)
        case Some(p) => Some([c.idx] + p)
        case None => ChooseAmong(fields, cs[1..], names)
  }

  // ----- The search finds the longest match, if there is any -----

  ghost predicate Descending(cs: seq<Candidate>) {
    forall i, j :: 0 <= i < j < |cs| ==> cs[i].consumed > cs[j].consumed
  }

  ghost predicate Different(cs: seq<Candidate>) {
    forall i, j :: 0 <= i < j < |cs| ==> cs[i].consumed != cs[j].consumed
  }

  lemma {:induction false} InsertDescends(c: Candidate, cs: seq<Candidate>)
    requires Descending(cs) && forall x <- cs :: x.consumed != c.consumed
    ensures Descending(Insert(c, cs))
  {
    if cs != [] && c.consumed < cs[0].consumed {
      InsertDescends(c, cs[1..]);
      var rest := Insert(c, cs[1..]);
      forall j | 0 <= j < |rest|
        ensures cs[0].consumed > rest[j].consumed
      {
        assert rest[j] in rest;
      }
    } else if cs != [] {
      assert cs[0] in cs;
    }
  }

  lemma {:induction false} SortedDescends(cs: seq<Candidate>)
    requires Different(cs)
    ensures Descending(Sorted(cs))
  {
    if cs != [] {
      SortedDescends(cs[1..]);
      forall x | x in Sorted(cs[1..]) ensures x.consumed != cs[0].consumed { assert x in cs[1..]; }
      InsertDescends(cs[0], Sorted(cs[1..]));
    }
  }

  /** Every field whose tag starts the name is a candidate. */
  lemma {:induction false} CandidatesComplete(fields: seq<Field>, i: nat, names: Name, j: nat)
    requires i <= j < |fields| && fields[j].tag.Some? && Matches(fields[j].tag.value, names)
    ensures Candidate(j, |fields[j].tag.value|) in CandidatesFrom(fields, i, names)
    decreases |fields| - i
  {
    hide Matches;
    if i < j {
      CandidatesComplete(fields, i + 1, names, j);
      var rest := CandidatesFrom(fields, i + 1, names);
      assert forall c :: c in rest ==> c in CandidatesFrom(fields, i, names);
    }
  }

  ghost predicate TagsDiffer(fields: seq<Field>) {
    forall i, j :: 0 <= i < j < |fields| && fields[i].tag.Some? ==> fields[i].tag != fields[j].tag
  }

  lemma DifferentCons(c: Candidate, cs: seq<Candidate>)
    requires Different(cs) && forall x <- cs :: x.consumed != c.consumed
    ensures Different([c] + cs)
  {
  }

  /** With different tags no two matches take equally much of the name. */
  lemma {:induction false} CandidatesDiffer(fields: seq<Field>, i: nat, names: Name)
    requires TagsDiffer(fields) && i <= |fields|
    ensures Different(CandidatesFrom(fields, i, names))
    decreases |fields| - i
  {
    assert Different([]);
    hide Matches, TagsDiffer, Different, Fit;
    if i < |fields| {
      CandidatesDiffer(fields, i + 1, names);
      var rest := CandidatesFrom(fields, i + 1, names);
      if fields[i].tag.Some? && Matches(fields[i].tag.value, names) {
        forall c | c in rest
          ensures c.consumed != |fields[i].tag.value|
        {
          SameLength(fields, i, c, names);
        }
        DifferentCons(Candidate(i, |fields[i].tag.value|), rest);
      } else {
        assert CandidatesFrom(fields, i, names) == rest;
      }
    }
  }

  lemma SameLength(fields: seq<Field>, i: nat, c: Candidate, names: Name)
    requires TagsDiffer(fields) && Fit(fields, names, c) && i < c.idx
    requires fields[i].tag.Some? && Matches(fields[i].tag.value, names)
    ensures c.consumed != |fields[i].tag.value|
  {
    assert fields[i].tag != fields[c.idx].tag;
  }

  lemma {:induction false} ChooseCorrect(node: Node, names: Name)
    requires WellTagged(node)
    ensures Choose(node, names).Some? ==> Spells(node, Choose(node, names).value, names)
    ensures forall q :: Spells(node, q, names) ==>
      Choose(node, names).Some? && (q == Choose(node, names).value || LexLess(Takes(node, q), Takes(node, Choose(node, names).value)))
    decreases node, 0
  {
    if node.Struct? && names != [] {
      var cs := CandidatesFrom(node.fields, 0, names);
      CandidatesDiffer(node.fields, 0, names);
      SortedDescends(cs);
      ChooseAmongCorrect(node, Sorted(cs), names);
      forall q | Spells(node, q, names)
        ensures Choose(node, names).Some? && (q == Choose(node, names).value || LexLess(Takes(node, q), Takes(node, Choose(node, names).value)))
      {
        CandidatesComplete(node.fields, 0, names, q[0]);
        assert Leads(node, Sorted(cs), q);
      }
    } else {
      forall q
        ensures !Spells(node, q, names)
      {
        if q != [] && node.Struct? && q[0] < |node.fields| {
          assert node.fields[q[0]].tag.Some? ==> node.fields[q[0]].tag.value != [];
        }
      }
    }
  }

  /** The path starts with one of the candidates. */
  ghost predicate Leads(node: Node, cs: seq<Candidate>, q: seq<nat>)
  {
    q != [] && exists c :: c in cs && c.idx == q[0]
  }

  lemma {:induction false} ChooseAmongCorrect(node: Node, cs: seq<Candidate>, names: Name)
    requires WellTagged(node) && node.Struct? && (forall c <- cs :: Fit(node.fields, names, c)) && Descending(cs)
    ensures var r := ChooseAmong(node.fields, cs, names);
            && (r.Some? ==> Spells(node, r.value, names) && Leads(node, cs, r.value))
            && forall q :: Spells(node, q, names) && Leads(node, cs, q) ==> r.Some? && (q == r.value || LexLess(Takes(node, q), Takes(node, r.value)))
    decreases node.fields, |cs|
  {
    if cs != [] {
      var c := cs[0];
      assert c in cs && Fit(node.fields, names, c);
      var rest := names[c.consumed..];
      var child := node.fields[c.idx].node;
      var r := ChooseAmong(node.fields, cs, names);
      if rest == [] {
        assert Spells(node, [c.idx], names);
        forall q | Spells(node, q, names) && Leads(node, cs, q)
          ensures q == r.value || LexLess(Takes(node, q), Takes(node, r.value))
        {
          FirstTakes(node, q, cs, names);
          if q[0] == c.idx { NothingLeft(child, q[1..]); }
        }
      } else {
        ChooseCorrect(child, rest);
        ChooseAmongCorrect(node, cs[1..], names);
        if Choose(child, rest).Some? {
          ChosenHere(node, cs, names);
        } else {
          forall q | Spells(node, q, names) && Leads(node, cs, q)
            ensures Leads(node, cs[1..], q)
          {
            StepDown(node, q, c, names);
          }
        }
      }
    }
  }

  /** Nothing is spelled by an empty name. */
  lemma NothingLeft(node: Node, q: seq<nat>)
    requires WellTagged(node)
    ensures !Spells(node, q, [])
  {
    if q != [] && node.Struct? && q[0] < |node.fields| {
      assert node.fields[q[0]].tag.Some? ==> node.fields[q[0]].tag.value != [];
    }
  }

  /** A path led by a later candidate takes less in its first step. */
  lemma FirstTakes(node: Node, q: seq<nat>, cs: seq<Candidate>, names: Name)
    requires node.Struct? && (forall c <- cs :: Fit(node.fields, names, c)) && Descending(cs) && cs != []
    requires Spells(node, q, names) && Leads(node, cs, q)
    ensures Takes(node, q) != [] && Takes(node, q)[0] == |node.fields[q[0]].tag.value|
    ensures q[0] == cs[0].idx || Takes(node, q)[0] < cs[0].consumed
  {
    var c :| c in cs && c.idx == q[0];
    var k :| 0 <= k < |cs| && cs[k] == c;
    assert cs[0] in cs;
  }

  lemma StepDown(node: Node, q: seq<nat>, c: Candidate, names: Name)
    requires node.Struct? && Fit(node.fields, names, c) && names[c.consumed..] != [] && Spells(node, q, names)
    ensures q[0] == c.idx ==> |q| > 1 && Spells(node.fields[c.idx].node, q[1..], names[c.consumed..])
  {
  }

  lemma ChosenHere(node: Node, cs: seq<Candidate>, names: Name)
    requires WellTagged(node) && node.Struct? && cs != [] && (forall c <- cs :: Fit(node.fields, names, c)) && Descending(cs)
    requires cs[0] in cs && Fit(node.fields, names, cs[0]) && names[cs[0].consumed..] != [] && Choose(node.fields[cs[0].idx].node, names[cs[0].consumed..]).Some?
    requires var child, rest := node.fields[cs[0].idx].node, names[cs[0].consumed..];
             var p := Choose(child, rest).value;
             && Spells(child, p, rest)
             && forall q :: Spells(child, q, rest) ==> q == p || LexLess(Takes(child, q), Takes(child, p))
    ensures var r := ChooseAmong(node.fields, cs, names);
            && r.Some? && Spells(node, r.value, names) && Leads(node, cs, r.value)
            && forall q :: Spells(node, q, names) && Leads(node, cs, q) ==> q == r.value || LexLess(Takes(node, q), Takes(node, r.value))
  {
    var c := cs[0];
    var child, rest := node.fields[c.idx].node, names[c.consumed..];
    var p := Choose(child, rest).value;
    var r := [c.idx] + p;
    assert r[1..] == p && r[0] == c.idx;
    assert ChooseAmong(node.fields, cs, names) == Some(r);
    assert Leads(node, cs, r);
    hide Choose, ChooseAmong, Leads, Descending;
    forall q | Spells(node, q, names) && Leads(node, cs, q)
      ensures q == r || LexLess(Takes(node, q), Takes(node, r))
    {
      FirstTakes(node, q, cs, names);
      ChosenFirst(node, c, names, p, q);
    }
  }

  /** A path that takes less at once comes later; one that starts alike is compared below. */
  lemma ChosenFirst(node: Node, c: Candidate, names: Name, p: seq<nat>, q: seq<nat>)
    requires node.Struct? && Fit(node.fields, names, c) && names[c.consumed..] != []
    requires Spells(node, [c.idx] + p, names) && Spells(node, q, names)
    requires Takes(node, q) != [] && (q[0] == c.idx || Takes(node, q)[0] < c.consumed)
    requires var child, rest := node.fields[c.idx].node, names[c.consumed..];
             Spells(child, q[1..], rest) ==> q[1..] == p || LexLess(Takes(child, q[1..]), Takes(child, p))
    ensures q == [c.idx] + p || LexLess(Takes(node, q), Takes(node, [c.idx] + p))
  {
    var child, r := node.fields[c.idx].node, [c.idx] + p;
    assert r[1..] == p && Takes(node, r) == [c.consumed] + Takes(child, p);
    if q[0] == c.idx {
      StepDown(node, q, c, names);
      assert q == [q[0]] + q[1..] && Takes(node, q) == [c.consumed] + Takes(child, q[1..]);
    }
  }

  /** An override finds a field exactly when the tags of some path spell its name, and then the longest match wins at every level. */
  lemma FindsLongestMatch(node: Node, names: Name, q: seq<nat>)
    requires WellTagged(node)
    ensures Choose(node, names).Some? <==> exists p :: Spells(node, p, names)
    ensures Choose(node, names).Some? ==> Spells(node, Choose(node, names).value, names)
    ensures Spells(node, q, names) && Some(q) != Choose(node, names) ==> LexLess(Takes(node, q), Takes(node, Choose(node, names).value))
  {
    hide Choose, Takes, LexLess;
    ChooseCorrect(node, names);
    if Choose(node, names).Some? {
      assert Spells(node, Choose(node, names).value, names);
    }
    if Spells(node, q, names) {
      assert Choose(node, names).Some? && (q == Choose(node, names).value || LexLess(Takes(node, q), Takes(node, Choose(node, names).value)));
    }
  }

  // ----- The code, writing into the configuration in place -----

  predicate Reaches(node: Node, p: seq<nat>)
    decreases |p|
  {
    p == [] || (node.Struct? && p[0] < |node.fields| && Reaches(node.fields[p[0]].node, p[1..]))
  }

  function At(node: Node, p: seq<nat>): Node
    requires Reaches(node, p)
    decreases |p|
  {
    if p == [] then node else At(node.fields[p[0]].node, p[1..])
  }

  function Put(node: Node, p: seq<nat>, new_: Node): Node
    requires Reaches(node, p)
    decreases |p|
  {
    if p == [] then new_
    else
      var field := node.fields[p[0]];
      Struct(node.fields[p[0] := field.(node := Put(field.node, p[1..], new_))])
  }

  /** Writing at one place changes what is found there, and nothing that is not above or below it. */
  lemma {:induction false} PutChangesOne(node: Node, p: seq<nat>, new_: Node, q: seq<nat>)
    requires Reaches(node, p) && Reaches(node, q)
    ensures Reaches(Put(node, p, new_), p) && At(Put(node, p, new_), p) == new_
    ensures !(p <= q) && !(q <= p) ==> Reaches(Put(node, p, new_), q) && At(Put(node, p, new_), q) == At(node, q)
    decreases |p|
  {
    if p != [] {
      if q != [] && q[0] == p[0] {
        PutChangesOne(node.fields[p[0]].node, p[1..], new_, q[1..]);
        assert p == [p[0]] + p[1..] && q == [q[0]] + q[1..];
        assert p[1..] <= q[1..] ==> p <= q;
        assert q[1..] <= p[1..] ==> q <= p;
      } else {
        PutChangesOne(node.fields[p[0]].node, p[1..], new_, []);
      }
    }
  }

  lemma {:induction false} AtChild(node: Node, p: seq<nat>, i: nat)
    requires Reaches(node, p) && At(node, p).Struct? && i < |At(node, p).fields|
    ensures Reaches(node, p + [i]) && At(node, p + [i]) == At(node, p).fields[i].node
    decreases |p|
  {
    if p == [] {
      assert p + [i] == [i] && [i][1..] == [];
    } else {
      AtChild(node.fields[p[0]].node, p[1..], i);
      assert (p + [i])[1..] == p[1..] + [i];
    }
  }

  lemma {:induction false} ChosenReaches(node: Node, names: Name)
    ensures Choose(node, names).Some? ==> Choose(node, names).value != [] && Reaches(node, Choose(node, names).value)
    decreases node, 0
  {
    if node.Struct? && names != [] {
      AmongReaches(node, Sorted(CandidatesFrom(node.fields, 0, names)), names);
    }
  }

  lemma {:induction false} AmongReaches(node: Node, cs: seq<Candidate>, names: Name)
    requires node.Struct? && forall c <- cs :: Fit(node.fields, names, c)
    ensures var r := ChooseAmong(node.fields, cs, names);
            r.Some? ==> r.value != [] && Reaches(node, r.value)
    decreases node.fields, |cs|
  {
    if cs != [] {
      var c := cs[0];
      assert c in cs && Fit(node.fields, names, c);
      assert node.fields decreases to node.fields[c.idx];
      var rest := names[c.consumed..];
      if rest != [] {
        var child := node.fields[c.idx].node;
        ChosenReaches(child, rest);
        AmongReaches(node, cs[1..], names);
        if Choose(child, rest).Some? {
          var p := Choose(child, rest).value;
          assert ([c.idx] + p)[1..] == p;
        }
      }
    }
  }

  /** setScalar: parse turns text into a value of a kind, or fails; structs take no text. */
  function SetScalar(node: Node, val: string, parse: (string, string) -> Option<string>): Option<Node> {
    match node
    case Struct(_) => None
    case Scalar(kind, _) => match parse(kind, val) case None => None case Some(value) => Some(Scalar(kind, value))
  }

  /** What an override makes of a configuration: None when the value does not fit the field. */
  function Override(root: Node, names: Name, val: string, parse: (string, string) -> Option<string>): Option<Node> {
    match Choose(root, names)
    case None => Some(root)
    case Some(p) =>
      ChosenReaches(root, names);
      match SetScalar(At(root, p), val, parse)
      case None => None
      case Some(leaf) => Some(Put(root, p, leaf))
  }

  datatype Outcome = Found | NotFound | Refused

  /** What resolveField leaves, and returns, when its search under at ends with the given path. */
  ghost predicate Resolved(before: Node, at: seq<nat>, chosen: Option<seq<nat>>, val: string, parse: (string, string) -> Option<string>,
                           root: Node, outcome: Outcome)
  {
    match chosen
    case None => outcome == NotFound && root == before
    case Some(p) =>
      && Reaches(before, at + p)
      && match At(before, at + p)
         case Struct(_) => outcome == Refused && root == before
         case Scalar(kind, _) =>
           match parse(kind, val)
           case None => outcome == Refused && root == before
           case Some(value) => outcome == Found && root == Put(before, at + p, Scalar(kind, value))
  }

  class Config {
    var root: Node

    /** resolveField on the value at the given place. */
    method ResolveField(at: seq<nat>, names: Name, val: string, parse: (string, string) -> Option<string>, ghost v: Node) returns (outcome: Outcome)
      requires Reaches(root, at) && At(root, at) == v
      modifies this
      ensures Resolved(old(root), at, Choose(v, names), val, parse, root, outcome)
      decreases v, 0
    {
      var node := At(root, at);
      if !node.Struct? || names == [] {
        return NotFound;
      }
      var candidates := Collect(node.fields, names);
      candidates := Sorted(candidates);
      outcome := TryAll(at, node.fields, candidates, names, val, parse);
    }

    /** The candidates, tried one after the other. */
    method TryAll(at: seq<nat>, fields: seq<Field>, candidates: seq<Candidate>, names: Name, val: string, parse: (string, string) -> Option<string>)
      returns (outcome: Outcome)
      requires Reaches(root, at) && At(root, at) == Struct(fields) && forall c <- candidates :: Fit(fields, names, c)
      modifies this
      ensures Resolved(old(root), at, ChooseAmong(fields, candidates, names), val, parse, root, outcome)
      decreases fields, 1
    {
      hide Choose, Matches;
      ghost var all := ChooseAmong(fields, candidates, names);
      assert candidates[0..] == candidates;
      for i := 0 to |candidates|
        invariant root == old(root) && ChooseAmong(fields, candidates[i..], names) == all
      {
        var c := candidates[i];
        assert c in candidates && Fit(fields, names, c);
        ChooseAmongStep(fields, candidates, i, names);
        var rest := names[c.consumed..];
        AtChild(root, at, c.idx);
        assert fields decreases to fields[c.idx];
        if rest == [] {
          var leaf := SetScalar(At(root, at + [c.idx]), val, parse);
          if leaf.None? {
            return Refused;
          }
          root := Put(root, at + [c.idx], leaf.value);
          return Found;
        }
        outcome := ResolveField(at + [c.idx], rest, val, parse, fields[c.idx].node);
        if outcome != NotFound {
          assert at + [c.idx] + Choose(fields[c.idx].node, rest).value == at + ([c.idx] + Choose(fields[c.idx].node, rest).value);
          return;
        }
      }
      assert candidates[|candidates|..] == [];
      outcome := NotFound;
    }

    /** applyEnvOverrides: each variable in turn, up to the first that does not fit; failed is its place. */
    method ApplyEnvOverrides(vars: seq<(Name, string)>, parse: (string, string) -> Option<string>) returns (failed: Option<nat>)
      modifies this
      ensures failed.None? ==> Overrides(old(root), vars, parse) == Some(root)
      ensures failed.Some? ==>
        (failed.value < |vars| && Overrides(old(root), vars[..failed.value], parse) == Some(root)
         && Override(root, vars[failed.value].0, vars[failed.value].1, parse).None?)
    {
      hide Choose, SetScalar;
      for i := 0 to |vars|
        invariant Overrides(old(root), vars[..i], parse) == Some(root)
      {
        ghost var before := root;
        var outcome := ResolveField([], vars[i].0, vars[i].1, parse, root);
        ResolvedOverrides(before, vars[i].0, vars[i].1, parse, root, outcome);
        if outcome == Refused {
          return Some(i);
        }
        assert vars[..i + 1][..i] == vars[..i];
      }
      assert vars[..|vars|] == vars;
      failed := None;
    }
  }

  /** The variables applied in order; None once one has not fitted. */
  function Overrides(root: Node, vars: seq<(Name, string)>, parse: (string, string) -> Option<string>): Option<Node>
    decreases |vars|
  {
    if vars == [] then Some(root)
    else
      match Overrides(root, vars[..|vars| - 1], parse)
      case None => None
      case Some(node) => Override(node, vars[|vars| - 1].0, vars[|vars| - 1].1, parse)
  }

  lemma ResolvedOverrides(before: Node, names: Name, val: string, parse: (string, string) -> Option<string>, root: Node, outcome: Outcome)
    requires Resolved(before, [], Choose(before, names), val, parse, root, outcome)
    ensures Override(before, names, val, parse) == if outcome == Refused then None else Some(root)
    ensures outcome == Refused ==> root == before
  {
    hide Choose;
    if Choose(before, names).Some? {
      assert [] + Choose(before, names).value == Choose(before, names).value;
    }
  }

  lemma ChooseAmongStep(fields: seq<Field>, cs: seq<Candidate>, i: nat, names: Name)
    requires i < |cs| && forall c <- cs :: Fit(fields, names, c)
    ensures Fit(fields, names, cs[i]) && cs[i].consumed <= |names|
    ensures ChooseAmong(fields, cs[i..], names)
            == if names[cs[i].consumed..] == [] then Some([cs[i].idx])
               else match Choose(fields[cs[i].idx].node, names[cs[i].consumed..])
                    case Some(p) => Some([cs[i].idx] + p)
                    case None => ChooseAmong(fields, cs[i + 1..], names)
  {
    assert cs[i] in cs;
    assert cs[i..][0] == cs[i] && cs[i..][1..] == cs[i + 1..];
  }

  method StartsWith(tag: Name, names: Name) returns (starts: bool)
    requires |tag| <= |names|
    ensures starts <==> Matches(tag, names)
  {
    for j := 0 to |tag|
      invariant forall k :: 0 <= k < j ==> names[k] == tag[k]
    {
      if names[j] != tag[j] {
        assert names[..|tag|][j] != tag[j];
        return false;
      }
    }
    starts := true;
  }

  lemma CollectStep(found: seq<Candidate>, fields: seq<Field>, i: nat, names: Name)
    requires i < |fields|
    ensures found + CandidatesFrom(fields, i, names)
            == (if fields[i].tag.Some? && Matches(fields[i].tag.value, names) then found + [Candidate(i, |fields[i].tag.value|)] else found)
               + CandidatesFrom(fields, i + 1, names)
  {
    hide Fit, Matches;
    if fields[i].tag.Some? {
      SeqAssociates(found, [Candidate(i, |fields[i].tag.value|)], CandidatesFrom(fields, i + 1, names));
    }
  }

  /** The loop that collects the fields whose tags the name starts with. */
  method Collect(fields: seq<Field>, names: Name) returns (candidates: seq<Candidate>)
    ensures candidates == CandidatesFrom(fields, 0, names)
  {
    assert CandidatesFrom(fields, |fields|, names) == [];
    hide Fit, CandidatesFrom;
    candidates := [];
    for i := 0 to |fields|
      invariant candidates + CandidatesFrom(fields, i, names) == CandidatesFrom(fields, 0, names)
    {
      var tag := fields[i].tag;
      CollectStep(candidates, fields, i, names);
      if tag.None? || |tag.value| > |names| {
        continue;
      }
      var starts := StartsWith(tag.value, names);
      if starts {
        candidates := candidates + [Candidate(i, |tag.value|)];
      }
    }
  }

  /**
   An override writes exactly one leaf, the one its name finds: it ends with the value its
   kind reads in the text, and every other value is left alone.
   */
  lemma OverrideWritesOneLeaf(root: Node, names: Name, val: string, parse: (string, string) -> Option<string>, q: seq<nat>)
    requires Override(root, names, val, parse).Some? && Choose(root, names).Some? && Reaches(root, q) && At(root, q).Scalar?
    ensures var p, after := Choose(root, names).value, Override(root, names, val, parse).value;
            && Reaches(root, p) && At(root, p).Scalar?
            && Reaches(after, q) && At(after, q).Scalar? && At(after, q).kind == At(root, q).kind
            && (q == p ==> parse(At(root, p).kind, val) == Some(At(after, q).value))
            && (q != p ==> At(after, q).value == At(root, q).value)
  {
    ChosenReaches(root, names);
    var p := Choose(root, names).value;
    PutChangesOne(root, p, SetScalar(At(root, p), val, parse).value, q);
    LeavesApart(root, p, q);
    hide Choose;
  }

  /** p spells the name, and any other path that does takes less of it where they part. */
  ghost predicate Longest(root: Node, p: seq<nat>, names: Name) {
    Spells(root, p, names) && forall q :: Spells(root, q, names) && q != p ==> LexLess(Takes(root, q), Takes(root, p))
  }

  lemma ChosenIsLongest(root: Node, names: Name, p: seq<nat>)
    requires WellTagged(root)
    ensures Choose(root, names) == Some(p) <==> Longest(root, p, names)
  {
    ChooseCorrect(root, names);
    hide Choose, Spells, LexLess, Takes, WellTagged;
    if Longest(root, p, names) {
      LexOneWay(Takes(root, p), Takes(root, Choose(root, names).value));
    }
  }

  /** An override changes nothing if no field is spelled, and fails exactly when the longest match takes no text or not this one. */
  lemma OverrideFailsIff(root: Node, names: Name, val: string, parse: (string, string) -> Option<string>)
    requires WellTagged(root)
    ensures (forall p :: !Spells(root, p, names)) ==> Override(root, names, val, parse) == Some(root)
    ensures Override(root, names, val, parse).None? <==>
      exists p :: Longest(root, p, names) && Reaches(root, p) && (At(root, p).Struct? || parse(At(root, p).kind, val).None?)
  {
    ChooseCorrect(root, names);
    ChosenReaches(root, names);
    forall p ensures Choose(root, names) == Some(p) <==> Longest(root, p, names) { ChosenIsLongest(root, names, p); }
    hide Choose, Spells, Longest, Takes, LexLess, WellTagged;
  }

  lemma {:induction false} LexOneWay(a: seq<nat>, b: seq<nat>)
    ensures !(LexLess(a, b) && LexLess(b, a))
    decreases |a|
  {
    if a != [] && b != [] {
      LexOneWay(a[1..], b[1..]);
    }
  }

  lemma {:induction false} LeavesApart(node: Node, p: seq<nat>, q: seq<nat>)
    requires Reaches(node, p) && Reaches(node, q) && At(node, p).Scalar? && At(node, q).Scalar?
    ensures p <= q || q <= p ==> p == q
    decreases |p|
  {
    if p != [] && q != [] && p[0] == q[0] {
      LeavesApart(node.fields[p[0]].node, p[1..], q[1..]);
      assert p == [p[0]] + p[1..] && q == [q[0]] + q[1..];
      assert p <= q ==> p[1..] <= q[1..];
      assert q <= p ==> q[1..] <= p[1..];
    }
  }
}
