/** Which changes of several files a digest notices, when references stay as they are. */
module AssetChanges {
  import opened Assets

  // The bytes of the files a digest covers are hashed one after the other with nothing between them, so bytes that move
  // from one file to its neighbour go unnoticed.

  /** Some file the digest of start covers is different in other. */
  ghost predicate Changed(files: map<Path, Content>, other: map<Path, Content>, refs: Graph, start: Path)
    requires other.Keys == files.Keys
  {
    exists p :: p in files && Reachable(refs, start, p) && files[p] != other[p]
  }

  /** The digest of start hashes different bytes for files and for other. */
  ghost predicate Noticed(files: map<Path, Content>, other: map<Path, Content>, refs: Graph, start: Path)
    requires Closed(files.Keys, refs) && start in files && other.Keys == files.Keys
  {
    OrderNames(files.Keys, refs, start);
    Bytes(files, HashOrder(files.Keys, refs, start)) != Bytes(other, HashOrder(files.Keys, refs, start))
  }

  lemma CancelLeft(a: Content, b: Content, c: Content)
    ensures a + b == a + c ==> b == c
  {
    assert (a + b)[|a|..] == b && (a + c)[|a|..] == c;
  }

  lemma {:induction false} SameLengthsSame(files: map<Path, Content>, other: map<Path, Content>, order: seq<Path>)
    requires forall p <- order :: p in files && p in other && |files[p]| == |other[p]|
    requires Bytes(files, order) == Bytes(other, order)
    ensures forall p <- order :: files[p] == other[p]
    decreases |order|
  {
    if order != [] {
      var first, first' := files[order[0]], other[order[0]];
      var rest, rest' := Bytes(files, order[1..]), Bytes(other, order[1..]);
      assert first == (first + rest)[..|first|] && first' == (first' + rest')[..|first|];
      CancelLeft(first, rest, rest');
      SameLengthsSame(files, other, order[1..]);
    }
  }

  /** However many files change, if those covered keep their lengths the change is noticed exactly when one of them changed. */
  lemma SameLengthChanges(files: map<Path, Content>, other: map<Path, Content>, refs: Graph, start: Path)
    requires Closed(files.Keys, refs) && start in files && other.Keys == files.Keys
    requires forall p :: p in files && Reachable(refs, start, p) ==> |files[p]| == |other[p]|
    ensures Noticed(files, other, refs, start) <==> Changed(files, other, refs, start)
  {
    var order := HashOrder(files.Keys, refs, start);
    OrderNames(files.Keys, refs, start);
    HashesReachable(files.Keys, refs, start);
    if Bytes(files, order) == Bytes(other, order) {
      SameLengthsSame(files, other, order);
    }
    if !Changed(files, other, refs, start) {
      BytesSame(files, other, order);
    }
  }

  lemma BytesAround(files: map<Path, Content>, order: seq<Path>, k: nat)
    requires (forall p <- order :: p in files) && k < |order|
    ensures (forall p <- order[..k] :: p in files) && (forall p <- order[k + 1..] :: p in files)
    ensures Bytes(files, order) == Bytes(files, order[..k]) + (files[order[k]] + Bytes(files, order[k + 1..]))
  {
    assert order == order[..k] + order[k..] && order[k..][1..] == order[k + 1..];
    assert forall p <- order[..k] :: p in order;
    assert forall p <- order[k..] :: p in order;
    BytesAppended(files, order[..k], order[k..]);
  }

  /** When lengths change too: noticed, if of the first file that changed neither version starts with the other. */
  lemma FirstChangeNoticed(files: map<Path, Content>, other: map<Path, Content>, refs: Graph, start: Path, k: nat)
    requires Closed(files.Keys, refs) && start in files && other.Keys == files.Keys
    requires k < |HashOrder(files.Keys, refs, start)|
    requires forall p <- HashOrder(files.Keys, refs, start)[..k] :: p in files && files[p] == other[p]
    requires var p := HashOrder(files.Keys, refs, start)[k];
             p in files && !(files[p] <= other[p]) && !(other[p] <= files[p])
    ensures Noticed(files, other, refs, start)
  {
    var order := HashOrder(files.Keys, refs, start);
    OrderNames(files.Keys, refs, start);
    BytesAround(files, order, k);
    BytesAround(other, order, k);
    BytesSame(files, other, order[..k]);
    var f, g := files[order[k]], other[order[k]];
    var rest, rest' := Bytes(files, order[k + 1..]), Bytes(other, order[k + 1..]);
    CancelLeft(Bytes(files, order[..k]), f + rest, g + rest');
    StartAlike(f, rest, g, rest');
  }

  lemma StartAlike(f: Content, rest: Content, g: Content, rest': Content)
    ensures f + rest == g + rest' ==> f <= g || g <= f
  {
    if f + rest == g + rest' {
      assert f == (f + rest)[..|f|] && g == (g + rest')[..|g|];
    }
  }

  /** Two neighbours in the order may divide their bytes anew. */
  lemma DividedAnew(files: map<Path, Content>, order: seq<Path>, k: nat, c: Content, d: Content)
    requires Distinct(order) && (forall p <- order :: p in files) && k + 1 < |order|
    requires c + d == files[order[k]] + files[order[k + 1]]
    ensures Bytes(files[order[k] := c][order[k + 1] := d], order) == Bytes(files, order)
  {
    var other := files[order[k] := c][order[k + 1] := d];
    var before, after := order[..k], order[k + 2..];
    assert order[k] != order[k + 1];
    assert forall p <- before :: p in order && p != order[k] && p != order[k + 1];
    assert forall p <- after :: p in order && p != order[k] && p != order[k + 1];
    NeighboursAround(files, order, k);
    NeighboursAround(other, order, k);
    BytesSame(files, other, before);
    BytesSame(files, other, after);
  }

  lemma NeighboursAround(files: map<Path, Content>, order: seq<Path>, k: nat)
    requires (forall p <- order :: p in files) && k + 1 < |order|
    ensures (forall p <- order[..k] :: p in files) && (forall p <- order[k + 2..] :: p in files)
    ensures Bytes(files, order) == Bytes(files, order[..k]) + ((files[order[k]] + files[order[k + 1]]) + Bytes(files, order[k + 2..]))
  {
    BytesAround(files, order, k);
    var rest := order[k + 1..];
    assert rest[1..] == order[k + 2..] && rest[0] == order[k + 1];
    var f, g, after := files[order[k]], files[order[k + 1]], Bytes(files, order[k + 2..]);
    assert f + (g + after) == (f + g) + after;
  }

  lemma {:induction false} NothingCovered(files: map<Path, Content>, order: seq<Path>)
    requires forall p <- order :: p in files
    ensures Bytes(files, order) == [] <==> forall p <- order :: files[p] == []
    decreases |order|
  {
    if order != [] {
      NothingCovered(files, order[1..]);
      assert forall p <- order :: p == order[0] || p in order[1..];
    }
  }

  /**
   Every change of the files a digest covers is noticed exactly when there is only the
   file itself to cover, or nothing but empty files.
   */
  lemma EveryChangeNoticedIff(files: map<Path, Content>, refs: Graph, start: Path)
    requires Closed(files.Keys, refs) && start in files
    ensures (forall other: map<Path, Content> :: other.Keys == files.Keys && Changed(files, other, refs, start) ==> Noticed(files, other, refs, start))
            <==> (forall p :: Reachable(refs, start, p) ==> p == start) || (forall p :: p in files && Reachable(refs, start, p) ==> files[p] == [])
  {
    OrderNames(files.Keys, refs, start);
    HashesReachable(files.Keys, refs, start);
    var order := HashOrder(files.Keys, refs, start);
    if forall p :: Reachable(refs, start, p) ==> p == start {
      AloneNoticed(files, refs, start);
    } else if forall p :: p in files && Reachable(refs, start, p) ==> files[p] == [] {
      EmptyNoticed(files, refs, start);
    } else {
      var q :| Reachable(refs, start, q) && q != start;
      var p :| p in files && Reachable(refs, start, p) && files[p] != [];
      assert q in order && order[0] == start;
      assert |order| > 1;
      var k :| 0 <= k < |order| && order[k] == p;
      var other := Unnoticed(files, refs, start, k);
    }
  }

  lemma {:induction false} DistinctSize(order: seq<Path>, names: set<Path>)
    requires Distinct(order) && forall p <- order :: p in names
    ensures |order| <= |names|
    decreases |order|
  {
    if order != [] {
      assert order[0] in order;
      DistinctSize(order[1..], names - {order[0]});
    }
  }

  lemma AloneNoticed(files: map<Path, Content>, refs: Graph, start: Path)
    requires Closed(files.Keys, refs) && start in files && forall p :: Reachable(refs, start, p) ==> p == start
    ensures forall other: map<Path, Content> :: other.Keys == files.Keys && Changed(files, other, refs, start) ==> Noticed(files, other, refs, start)
  {
    HashesReachable(files.Keys, refs, start);
    var order := HashOrder(files.Keys, refs, start);
    DistinctSize(order, {start});
    assert order == [start] && order[1..] == [];
    forall other: map<Path, Content> | other.Keys == files.Keys && Changed(files, other, refs, start)
      ensures Noticed(files, other, refs, start)
    {
      assert Bytes(files, order) == files[start] && Bytes(other, order) == other[start];
    }
  }

  lemma EmptyNoticed(files: map<Path, Content>, refs: Graph, start: Path)
    requires Closed(files.Keys, refs) && start in files && forall p :: p in files && Reachable(refs, start, p) ==> files[p] == []
    ensures forall other: map<Path, Content> :: other.Keys == files.Keys && Changed(files, other, refs, start) ==> Noticed(files, other, refs, start)
  {
    OrderNames(files.Keys, refs, start);
    HashesReachable(files.Keys, refs, start);
    var order := HashOrder(files.Keys, refs, start);
    NothingCovered(files, order);
    forall other: map<Path, Content> | other.Keys == files.Keys && Changed(files, other, refs, start)
      ensures Noticed(files, other, refs, start)
    {
      NothingCovered(other, order);
    }
  }

  /** All of a file's bytes moved to its neighbour. */
  lemma Unnoticed(files: map<Path, Content>, refs: Graph, start: Path, k: nat) returns (other: map<Path, Content>)
    requires Closed(files.Keys, refs) && start in files
    requires 1 < |HashOrder(files.Keys, refs, start)| && k < |HashOrder(files.Keys, refs, start)|
    requires HashOrder(files.Keys, refs, start)[k] in files && files[HashOrder(files.Keys, refs, start)[k]] != []
    ensures other.Keys == files.Keys && Changed(files, other, refs, start) && !Noticed(files, other, refs, start)
  {
    OrderNames(files.Keys, refs, start);
    HashesReachable(files.Keys, refs, start);
    var order := HashOrder(files.Keys, refs, start);
    var i := if k + 1 < |order| then k else k - 1;
    var f, g := files[order[i]], files[order[i + 1]];
    var c, d := if k == i then [] else f + g, if k == i then f + g else [];
    assert c + d == f + g && order[i] != order[i + 1];
    assert order[i] in order && order[i + 1] in order && order[k] in order;
    other := files[order[i] := c][order[i + 1] := d];
    assert other.Keys == files.Keys && other[order[k]] == [];
    DividedAnew(files, order, i, c, d);
  }

  // ----- A style sheet and its import -----

  /** One byte for each character of an ASCII text. */
  function Ascii(s: string): Content {
    if s == [] then [] else [(s[0] as int % 128) as bv8] + Ascii(s[1..])
  }

  function ImportOf(target: string): Content {
    Ascii("@import url(" + target + ")")
  }

  ghost predicate Carries(content: Content, text: Content) {
    exists before, after: Content :: content == before + text + after
  }

  lemma CarriesMore(content: Content, more: Content, text: Content)
    requires Carries(content, text)
    ensures Carries(content + more, text)
  {
    var before, after: Content :| content == before + text + after;
    assert content + more == before + text + (after + more);
  }

  /** Bytes after the import in one style sheet may move to the start of the imported one: both change, and nothing is noticed. */
  lemma TwoChangesCanCancel(a: Path, b: Path, head: Content, moved: Content, rest: Content)
    requires a != b && moved != [] && Carries(head, ImportOf(b))
    ensures var refs: Graph := map[a := [b]];
            var files: map<Path, Content> := map[a := head + moved, b := rest];
            var other: map<Path, Content> := map[a := head, b := moved + rest];
            && Closed(files.Keys, refs) && other.Keys == files.Keys
            && Carries(files[a], ImportOf(b)) && Carries(other[a], ImportOf(b))
            && Changed(files, other, refs, a) && !Noticed(files, other, refs, a)
  {
    hide ImportOf;
    var refs: Graph := map[a := [b]];
    var files: map<Path, Content> := map[a := head + moved, b := rest];
    var other: map<Path, Content> := map[a := head, b := moved + rest];
    CarriesMore(head, moved, ImportOf(b));
    hide Carries;
    ReachSelf(refs, a);
    assert |files[a]| != |other[a]| && Changed(files, other, refs, a);
    ImportOrder(files.Keys, a, b);
    assert Distinct([a, b]);
    assert other == files[a := head][b := moved + rest];
    assert head + (moved + rest) == (head + moved) + rest;
    DividedAnew(files, [a, b], 0, head, moved + rest);
    hide HashOrder, Bytes;
  }

  lemma ImportOrder(names: set<Path>, a: Path, b: Path)
    requires a != b && names == {a, b}
    ensures Closed(names, map[a := [b]]) && HashOrder(names, map[a := [b]], a) == [a, b]
  {
    var refs: Graph := map[a := [b]];
    assert Closed(names, refs);
    HashesReachable(names, refs, a);
    OrderNames(names, refs, a);
    var order := HashOrder(names, refs, a);
    ReachSelf(refs, b);
    ReachStep(refs, a, b, b);
    DistinctSize(order, names);
    assert b in order && |order| == 2;
  }
}
