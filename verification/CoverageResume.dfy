/** Which piece lists are accepted as coverage, and why resuming a review ends with nothing left. */
module CoverageResume {
  import opened Common
  import opened Paths
  import opened Coverage
  import opened CoverageExact

  /** Canonical JSON text is never empty. */
  ghost predicate TextsNonEmpty(canon: Json -> string) {
    forall v :: canon(v) != ""
  }

  // ---------------------------------------------------------------- where atoms live

  /** The atom is the character at its index of the leaf its path names. */
  predicate AtLeaf(canon: Json -> string, root: Json, a: Atom) {
    && PathShape(a.path)
    && match Walk(root, Tokens(a.path))
       case None => false
       case Some(l) => Leaf(l) && a.index < |canon(l)| && a.ch == canon(l)[a.index]
  }

  ghost predicate Named(root: Json, ts: seq<string>, path: string, v: Json) {
    DistinctKeys(root) && Walk(root, ts) == Some(v) && path == Join(ts)
  }

  lemma {:induction false} NamedFacts(root: Json, ts: seq<string>, path: string, v: Json)
    requires Named(root, ts, path, v)
    ensures PathShape(path) && Tokens(path) == ts && DistinctKeys(v)
  {
    WalkSlashFree(root, ts);
    TokensJoin(ts);
    WalkIsLookup(root, ts);
  }

  lemma {:induction false} NamedKid(root: Json, ts: seq<string>, path: string, v: Json, k: nat)
    requires Named(root, ts, path, v) && k < |Kids(v)|
    ensures Named(root, ts + [Kids(v)[k].token], path + "/" + Kids(v)[k].token, Kids(v)[k].value)
  {
    NamedFacts(root, ts, path, v);
    hide Tokens, DistinctKeys;
    var token := Kids(v)[k].token;
    WalkConcat(root, ts, [token]);
    TokensDistinct(v);
    assert KidIndex(Kids(v), token) == Some(k);
    assert [token][1..] == [];
    JoinConcat(ts, [token]);
    JoinOne(token, []);
  }

  lemma {:induction false} GoodNamed(canon: Json -> string, root: Json, p: Piece) returns (ts: seq<string>, v: Json)
    requires DistinctKeys(root) && Good(root, p) && Exact(canon, root, p)
    ensures Named(root, ts, p.path, v) && ts == Tokens(p.path)
    ensures p.Whole? ==> p.value == v
    ensures p.Fragment? ==>
      Leaf(v) && p.start < p.end <= |canon(v)| && p == FragmentOf(canon, p.path, v, p.start, p.end)
  {
    ts := Tokens(p.path);
    v := Walk(root, ts).value;
    JoinTokens(p.path);
    WalkIsLookup(root, ts);
  }

  /** Atoms of a node are characters of leaves at or below it. */
  lemma {:induction false} NodeAtomsAtLeaves(
    canon: Json -> string, root: Json, ts: seq<string>, path: string, v: Json, a: Atom)
    requires Named(root, ts, path, v) && a in ValueAtoms(canon, path, v)
    ensures AtLeaf(canon, root, a) && ts <= Tokens(a.path)
    decreases v, 1, 0
  {
    NamedFacts(root, ts, path, v);
    if Leaf(v) {
      var i :| 0 <= i < |canon(v)| && TextAtoms(path, canon(v), 0)[i] == a;
    } else {
      KidAtomsAtLeaves(canon, root, ts, path, v, 0, a);
    }
  }

  lemma {:induction false} KidAtomsAtLeaves(
    canon: Json -> string, root: Json, ts: seq<string>, path: string, v: Json, k: nat, a: Atom)
    requires Named(root, ts, path, v) && k <= |Kids(v)| && a in KidAtoms(canon, path, v, k)
    ensures AtLeaf(canon, root, a)
    ensures exists j :: k <= j < |Kids(v)| && ts + [Kids(v)[j].token] <= Tokens(a.path)
    decreases v, 0, |Kids(v)| - k
  {
    if k == |Kids(v)| {
    } else {
      var kid := Kids(v)[k];
      NamedKid(root, ts, path, v, k);
      if a in ValueAtoms(canon, path + "/" + kid.token, kid.value) {
        NodeAtomsAtLeaves(canon, root, ts + [kid.token], path + "/" + kid.token, kid.value, a);
      } else {
        KidAtomsAtLeaves(canon, root, ts, path, v, k + 1, a);
      }
    }
  }

  /** An atom of the leaf that a path names is among the characters of that leaf. */
  lemma {:induction false} AtomAtNode(canon: Json -> string, root: Json, path: string, v: Json, a: Atom)
    requires AtLeaf(canon, root, a) && Walk(root, Tokens(a.path)) == Some(v) && a.path == path
    ensures a in ValueAtoms(canon, path, v)
  {
    hide Walk, Tokens, TextAtoms, Leaf, PathShape;
    assert TextAtoms(path, canon(v), 0)[a.index] == a;
  }

  lemma {:induction false} AtLeafFacts(canon: Json -> string, root: Json, a: Atom)
    requires AtLeaf(canon, root, a)
    ensures PathShape(a.path) && Walk(root, Tokens(a.path)).Some? && Leaf(Walk(root, Tokens(a.path)).value)
  {
    hide Walk, Tokens, Leaf, PathShape;
  }

  lemma {:induction false} OpenNamed(root: Json, ts: seq<string>, path: string, v: Json)
    requires Named(root, ts, path, v)
    ensures DistinctKeys(root) && Walk(root, ts) == Some(v) && path == Join(ts)
  {
    hide Walk, Join, DistinctKeys;
  }

  /** Conversely, every character of every leaf below a node is among its atoms. */
  lemma {:induction false} LeafAtomsInNode(
    canon: Json -> string, root: Json, ts: seq<string>, path: string, v: Json, a: Atom)
    requires Named(root, ts, path, v) && AtLeaf(canon, root, a) && ts <= Tokens(a.path)
    ensures a in ValueAtoms(canon, path, v)
    decreases v
  {
    hide *;
    NamedFacts(root, ts, path, v);
    OpenNamed(root, ts, path, v);
    AtLeafFacts(canon, root, a);
    var tp := Tokens(a.path);
    var rest := tp[|ts|..];
    assert tp == ts + rest;
    WalkConcat(root, ts, rest);
    if rest == [] {
      assert tp == ts;
      JoinTokens(a.path);
      AtomAtNode(canon, root, path, v, a);
    } else {
      var k := WalkFirst(v, rest);
      var kid := Kids(v)[k];
      NamedKid(root, ts, path, v, k);
      assert ts + [kid.token] <= tp;
      LeafAtomsInNode(canon, root, ts + [kid.token], path + "/" + kid.token, kid.value, a);
      KidAtomsInclude(canon, path, v, 0, k, a);
      LeafHasNoKids(v);
      NodeAtomsAreKids(canon, path, v);
    }
  }

  lemma {:induction false} NodeAtomsAreKids(canon: Json -> string, path: string, v: Json)
    ensures |Kids(v)| > 0 ==> ValueAtoms(canon, path, v) == KidAtoms(canon, path, v, 0)
  {
    hide Kids, KidAtoms;
  }

  lemma {:induction false} KidAtomsInclude(canon: Json -> string, path: string, v: Json, from: nat, k: nat, a: Atom)
    requires from <= k < |Kids(v)| && a in ValueAtoms(canon, path + "/" + Kids(v)[k].token, Kids(v)[k].value)
    ensures a in KidAtoms(canon, path, v, from)
    decreases k - from
  {
    if from == k {
    } else {
      KidAtomsInclude(canon, path, v, from + 1, k, a);
    }
  }

  /** No character occurs twice among the atoms of a node. */
  lemma {:induction false} NodeAtomsDistinct(
    canon: Json -> string, root: Json, ts: seq<string>, path: string, v: Json, a: Atom)
    requires Named(root, ts, path, v)
    ensures multiset(ValueAtoms(canon, path, v))[a] <= 1
    decreases v, 1, 0
  {
    if Leaf(v) {
      TextAtomsDistinct(path, canon(v), 0, a);
    } else {
      KidAtomsDistinct(canon, root, ts, path, v, 0, a);
    }
  }

  lemma {:induction false} TextAtomsDistinct(path: string, text: string, start: nat, a: Atom)
    ensures multiset(TextAtoms(path, text, start))[a] <= 1
    ensures a in TextAtoms(path, text, start) ==> start <= a.index
  {
    hide *;
    TextAtomsHead(path, text, start);
    if text == "" {
    } else {
      var first, rest := Atom(path, start, text[0]), TextAtoms(path, text[1..], start + 1);
      TextAtomsDistinct(path, text[1..], start + 1, a);
      CountConcat([first], rest, a);
      assert multiset([first])[a] == if a == first then 1 else 0;
      assert a in multiset(rest) <==> a in rest;
    }
  }

  lemma {:induction false} TextAtomsHead(path: string, text: string, start: nat)
    ensures TextAtoms(path, text, start) ==
      if text == "" then [] else [Atom(path, start, text[0])] + TextAtoms(path, text[1..], start + 1)
  {
  }

  lemma {:induction false} KidAtomsDistinct(
    canon: Json -> string, root: Json, ts: seq<string>, path: string, v: Json, k: nat, a: Atom)
    requires Named(root, ts, path, v) && k <= |Kids(v)|
    ensures multiset(KidAtoms(canon, path, v, k))[a] <= 1
    decreases v, 0, |Kids(v)| - k
  {
    if k == |Kids(v)| {
    } else {
      var kid := Kids(v)[k];
      NamedFacts(root, ts, path, v);
      TokensDistinct(v);
      NamedKid(root, ts, path, v, k);
      NodeAtomsDistinct(canon, root, ts + [kid.token], path + "/" + kid.token, kid.value, a);
      KidAtomsDistinct(canon, root, ts, path, v, k + 1, a);
      var here, later := ValueAtoms(canon, path + "/" + kid.token, kid.value), KidAtoms(canon, path, v, k + 1);
      if a in here && a in later {
        NodeAtomsAtLeaves(canon, root, ts + [kid.token], path + "/" + kid.token, kid.value, a);
        KidAtomsAtLeaves(canon, root, ts, path, v, k + 1, a);
        var j :| k + 1 <= j < |Kids(v)| && ts + [Kids(v)[j].token] <= Tokens(a.path);
        SameNext(ts, kid.token, Kids(v)[j].token, Tokens(a.path));
      }
    }
  }

  lemma {:induction false} SameNext(ts: seq<string>, a: string, b: string, all: seq<string>)
    requires ts + [a] <= all && ts + [b] <= all
    ensures a == b
  {
    assert all[|ts|] == (ts + [a])[|ts|] && all[|ts|] == (ts + [b])[|ts|];
  }

  // ---------------------------------------------------------------- pieces of the tree

  ghost predicate AllPlaced(canon: Json -> string, root: Json, ps: seq<Piece>) {
    forall i | 0 <= i < |ps| :: Exact(canon, root, ps[i]) && Good(root, ps[i])
  }

  lemma {:induction false} AtomOfText(path: string, text: string, start: nat, a: Atom) returns (i: nat)
    requires a in TextAtoms(path, text, start)
    ensures i < |text| && a == Atom(path, start + i, text[i])
  {
    hide *;
    i :| 0 <= i < |text| && TextAtoms(path, text, start)[i] == a;
  }

  lemma {:induction false} LeafHolds(
      canon: Json -> string, root: Json, ts: seq<string>, path: string, v: Json, index: nat)
    requires Named(root, ts, path, v) && Leaf(v) && index < |canon(v)|
    ensures AtLeaf(canon, root, Atom(path, index, canon(v)[index]))
  {
    NamedFacts(root, ts, path, v);
    hide Tokens, DistinctKeys, Join, Leaf, PathShape;
  }

  lemma {:induction false} FragmentAtomAtLeaf(
    canon: Json -> string, root: Json, ts: seq<string>, path: string, v: Json, start: nat, end: nat, a: Atom)
    requires Named(root, ts, path, v) && Leaf(v) && start < end <= |canon(v)|
    requires a in TextAtoms(path, canon(v)[start..end], start)
    ensures AtLeaf(canon, root, a) && a.path == path
  {
    hide *;
    var i := AtomOfText(path, canon(v)[start..end], start, a);
    LeafHolds(canon, root, ts, path, v, start + i);
  }

  lemma {:induction false} PieceAtomsAtLeaves(canon: Json -> string, root: Json, p: Piece, a: Atom)
    requires DistinctKeys(root) && Exact(canon, root, p) && Good(root, p) && a in PieceAtoms(canon, p)
    ensures AtLeaf(canon, root, a) && Tokens(p.path) <= Tokens(a.path)
  {
    match p
    case Whole(path, value) =>
      assert a in ValueAtoms(canon, path, value);
      hide *;
      var ts, v := GoodNamed(canon, root, p);
      NodeAtomsAtLeaves(canon, root, ts, p.path, v, a);
    case Fragment(path, text, start, end, source) =>
      assert a in TextAtoms(path, text, start);
      hide PieceAtoms, Exact, Good, Named, AtLeaf, Tokens, TextAtoms, DistinctKeys, Leaf;
      var ts, v := GoodNamed(canon, root, p);
      FragmentAtomAtLeaf(canon, root, ts, path, v, start, end, a);
  }

  lemma {:induction false} ValueHasAtom(canon: Json -> string, path: string, v: Json)
    requires TextsNonEmpty(canon)
    ensures ValueAtoms(canon, path, v) != []
    decreases v
  {
    if !Leaf(v) {
      ValueHasAtom(canon, path + "/" + Kids(v)[0].token, Kids(v)[0].value);
    } else {
      assert canon(v) != "";
    }
  }

  lemma {:induction false} PieceHasAtom(canon: Json -> string, root: Json, p: Piece) returns (a: Atom)
    requires TextsNonEmpty(canon) && Exact(canon, root, p)
    ensures a in PieceAtoms(canon, p)
  {
    if p.Whole? { ValueHasAtom(canon, p.path, p.value); }
    a := PieceAtoms(canon, p)[0];
  }

  /** A whole value holds every atom of the pieces at or below its path. */
  lemma {:induction false} WholeHolds(canon: Json -> string, root: Json, p: Piece, q: Piece, a: Atom)
    requires DistinctKeys(root) && Exact(canon, root, p) && Good(root, p) && Exact(canon, root, q) && Good(root, q)
    requires p.Whole? && Tokens(p.path) <= Tokens(q.path) && a in PieceAtoms(canon, q)
    ensures a in PieceAtoms(canon, p)
  {
    PieceAtomsAtLeaves(canon, root, q, a);
    var ts, v := GoodNamed(canon, root, p);
    hide Exact, Good, Lookup;
    LeafAtomsInNode(canon, root, ts, p.path, v, a);
  }

  lemma {:induction false} CountConcat(x: seq<Atom>, y: seq<Atom>, a: Atom)
    ensures multiset(x + y)[a] == multiset(x)[a] + multiset(y)[a]
    ensures a in x ==> multiset(x)[a] >= 1
  {
  }

  lemma {:induction false} HeldOnce(canon: Json -> string, ps: seq<Piece>, i: nat, a: Atom)
    requires i < |ps| && a in PieceAtoms(canon, ps[i])
    ensures multiset(Atoms(canon, ps))[a] >= 1
  {
    hide PieceAtoms;
    CountConcat(PieceAtoms(canon, ps[0]), Atoms(canon, ps[1..]), a);
    if i == 0 {
    } else {
      HeldOnce(canon, ps[1..], i - 1, a);
    }
  }

  lemma {:induction false} HeldTwice(canon: Json -> string, ps: seq<Piece>, i: nat, j: nat, a: Atom)
    requires i < j < |ps| && a in PieceAtoms(canon, ps[i]) && a in PieceAtoms(canon, ps[j])
    ensures multiset(Atoms(canon, ps))[a] >= 2
  {
    hide PieceAtoms;
    CountConcat(PieceAtoms(canon, ps[0]), Atoms(canon, ps[1..]), a);
    if i > 0 { HeldTwice(canon, ps[1..], i - 1, j - 1, a); } else { HeldOnce(canon, ps[1..], j - 1, a); }
  }

  /** A list of placed pieces that holds no character twice. */
  ghost predicate NoOverlap(canon: Json -> string, ps: seq<Piece>) {
    forall a :: multiset(Atoms(canon, ps))[a] <= 1
  }

  lemma {:induction false} HoldersCoincide(canon: Json -> string, ps: seq<Piece>, i: nat, j: nat, a: Atom)
    requires NoOverlap(canon, ps) && i < |ps| && j < |ps| && a in PieceAtoms(canon, ps[i])
    requires a in PieceAtoms(canon, ps[j])
    ensures i == j
  {
    if i < j { HeldTwice(canon, ps, i, j, a); }
    if j < i { HeldTwice(canon, ps, j, i, a); }
  }

  lemma {:induction false} WholesStandAlone(canon: Json -> string, root: Json, ps: seq<Piece>, i: nat, j: nat)
    requires DistinctKeys(root) && TextsNonEmpty(canon) && AllPlaced(canon, root, ps) && NoOverlap(canon, ps)
    requires i < |ps| && j < |ps| && ps[i].Whole? && Tokens(ps[i].path) <= Tokens(ps[j].path)
    ensures i == j
  {
    assert Exact(canon, root, ps[i]) && Good(root, ps[i]) && Exact(canon, root, ps[j]) && Good(root, ps[j]);
    var a := PieceHasAtom(canon, root, ps[j]);
    WholeHolds(canon, root, ps[i], ps[j], a);
    HoldersCoincide(canon, ps, i, j, a);
  }

  lemma {:induction false} NothingBelow(canon: Json -> string, root: Json, ps: seq<Piece>, i: nat, j: nat)
    requires DistinctKeys(root) && TextsNonEmpty(canon) && AllPlaced(canon, root, ps) && NoOverlap(canon, ps)
    requires i < |ps| && j < |ps|
    ensures !StartsWith(ps[j].path, ps[i].path + "/")
  {
    hide *;
    if StartsWith(ps[j].path, ps[i].path + "/") {
      PlacedIsGood(canon, root, ps);
      GoodWalks(root, ps, i);
      GoodWalks(root, ps, j);
      GoodShapes(root, ps, i);
      GoodShapes(root, ps, j);
      BelowIsPrefix(ps[j].path, ps[i].path);
      var tp, tq := Tokens(ps[i].path), Tokens(ps[j].path);
      assert tq == tp + tq[|tp|..] && tq[|tp|..] != [];
      WalkConcat(root, tp, tq[|tp|..]);
      var k := WalkFirst(Walk(root, tp).value, tq[|tp|..]);
      LeafHasNoKids(Walk(root, tp).value);
      WholesStandAlone(canon, root, ps, i, j);
    }
  }

  lemma {:induction false} GoodShapes(root: Json, ps: seq<Piece>, i: nat)
    requires AllGood(root, ps) && i < |ps| && Walk(root, Tokens(ps[i].path)).Some?
    ensures PathShape(ps[i].path) && (ps[i].Fragment? ==> Leaf(Walk(root, Tokens(ps[i].path)).value))
  {
    assert Good(root, ps[i]);
    hide Walk, Tokens, Leaf;
  }

  lemma {:induction false} LeafHasNoKids(v: Json)
    ensures Leaf(v) <==> |Kids(v)| == 0
  {
  }

  // ---------------------------------------------------------------- ranges at one leaf

  predicate Ascending(rs: seq<Range>) {
    forall i | 0 <= i < |rs| - 1 :: rs[i].start <= rs[i + 1].start
  }

  lemma {:induction false} InsertAscending(r: Range, rs: seq<Range>)
    requires Ascending(rs)
    ensures Ascending(InsertRange(r, rs))
    ensures InsertRange(r, rs) != [] && (InsertRange(r, rs)[0] == r || (rs != [] && InsertRange(r, rs)[0] == rs[0]))
  {
    if rs != [] && !(r.start < rs[0].start || (r.start == rs[0].start && r.end <= rs[0].end)) {
      assert Ascending(rs[1..]) by { assert forall i | 0 <= i < |rs[1..]| :: rs[1..][i] == rs[i + 1]; }
      InsertAscending(r, rs[1..]);
      var t := InsertRange(r, rs[1..]);
      assert InsertRange(r, rs) == [rs[0]] + t;
      assert rs[0].start <= t[0].start;
      forall i | 0 <= i < |t| ensures ([rs[0]] + t)[i].start <= ([rs[0]] + t)[i + 1].start {
        if i > 0 { assert t[i - 1].start <= t[i].start; }
      }
    } else if rs != [] {
      forall i | 0 <= i < |rs| ensures ([r] + rs)[i].start <= ([r] + rs)[i + 1].start {
        if i > 0 { assert rs[i - 1].start <= rs[i].start; }
      }
    }
  }

  lemma {:induction false} SortAscending(rs: seq<Range>)
    ensures Ascending(SortRanges(rs))
  {
    if rs == [] {
    } else {
      SortAscending(rs[1..]);
      InsertAscending(rs[0], SortRanges(rs[1..]));
    }
  }

  /** If the next range starts before this one ends, the character there is held twice. */
  lemma {:induction false} OverlapHoldsTwice(path: string, text: string, rs: seq<Range>)
    requires Inside(rs, |text|) && |rs| >= 2 && rs[0].start <= rs[1].start < rs[0].end
    ensures multiset(RangeAtoms(path, text, rs))[Atom(path, rs[1].start, text[rs[1].start])] >= 2
  {
    var here, rest := TextAtoms(path, text[rs[0].start..rs[0].end], rs[0].start), RangeAtoms(path, text, rs[1..]);
    var at := rs[1].start;
    var a := Atom(path, at, text[at]);
    assert here[at - rs[0].start] == a;
    assert rest == TextAtoms(path, text[at..rs[1].end], at) + RangeAtoms(path, text, rs[1..][1..]);
    assert rest[0] == a;
    hide TextAtoms, RangeAtoms;
    CountConcat(here, rest, a);
    assert multiset(here)[a] >= 1 && multiset(rest)[a] >= 1;
  }

  lemma {:induction false} TailHoldsLess(path: string, text: string, rs: seq<Range>, a: Atom)
    requires Inside(rs, |text|) && rs != []
    ensures multiset(RangeAtoms(path, text, rs[1..]))[a] <= multiset(RangeAtoms(path, text, rs))[a]
  {
    CountConcat(TextAtoms(path, text[rs[0].start..rs[0].end], rs[0].start), RangeAtoms(path, text, rs[1..]), a);
  }

  ghost predicate DistinctIn(path: string, text: string, rs: seq<Range>)
    requires Inside(rs, |text|)
  {
    forall a :: multiset(RangeAtoms(path, text, rs))[a] <= 1
  }

  lemma {:induction false} TailDistinct(path: string, text: string, rs: seq<Range>)
    requires Inside(rs, |text|) && rs != [] && DistinctIn(path, text, rs)
    ensures DistinctIn(path, text, rs[1..])
    ensures |rs| >= 2 && rs[0].start <= rs[1].start ==> rs[0].end <= rs[1].start
  {
    hide RangeAtoms, TextAtoms;
    forall a ensures multiset(RangeAtoms(path, text, rs[1..]))[a] <= 1 {
      TailHoldsLess(path, text, rs, a);
    }
    if |rs| >= 2 && rs[0].start <= rs[1].start < rs[0].end {
      OverlapHoldsTwice(path, text, rs);
    }
  }

  lemma {:induction false} DistinctRangesApart(path: string, text: string, rs: seq<Range>, cursor: nat)
    requires Inside(rs, |text|) && Ascending(rs) && (rs != [] ==> cursor <= rs[0].start)
    requires DistinctIn(path, text, rs)
    ensures Apart(rs, cursor)
  {
    if rs == [] {
    } else {
      var rest := rs[1..];
      TailDistinct(path, text, rs);
      hide DistinctIn;
      assert Ascending(rest) by { assert forall i | 0 <= i < |rest| :: rest[i] == rs[i + 1]; }
      DistinctRangesApart(path, text, rest, rs[0].end);
    }
  }

  lemma {:induction false} SelectHoldsLess(canon: Json -> string, ps: seq<Piece>, f: Piece -> bool)
    ensures multiset(Atoms(canon, Select(ps, f))) <= multiset(Atoms(canon, ps))
  {
    if ps == [] {
    } else {
      SelectHoldsLess(canon, ps[1..], f);
      SelectHead(canon, ps, f);
      assert Atoms(canon, ps) == PieceAtoms(canon, ps[0]) + Atoms(canon, ps[1..]);
    }
  }

  lemma {:induction false} RangesApart(canon: Json -> string, root: Json, ps: seq<Piece>, at: nat)
    requires DistinctKeys(root) && TextsNonEmpty(canon) && AllPlaced(canon, root, ps) && NoOverlap(canon, ps)
    requires at < |ps|
    ensures Apart(SortRanges(RangesAt(ps, ps[at].path)), 0)
  {
    var path := ps[at].path;
    assert Exact(canon, root, ps[at]) && Good(root, ps[at]);
    var ts, v := GoodNamed(canon, root, ps[at]);
    if ps[at].Whole? {
      forall i | 0 <= i < |ps| ensures ps[i].path == path ==> i == at {
        if ps[i].path == path { WholesStandAlone(canon, root, ps, at, i); }
      }
      NoRanges(ps, path);
    } else {
      forall i | 0 <= i < |ps| && ps[i].path == path
        ensures ps[i].Fragment? && ps[i].start < ps[i].end <= |canon(v)|
        ensures ps[i] == FragmentOf(canon, path, v, ps[i].start, ps[i].end)
      {
        assert Exact(canon, root, ps[i]) && Good(root, ps[i]);
        if ps[i].Whole? { WholesStandAlone(canon, root, ps, i, at); }
        var _, _ := GoodNamed(canon, root, ps[i]);
      }
      hide Exact, Good, AllPlaced;
      var f := (p: Piece) => p.path == path;
      FragmentAtoms(canon, ps, path, v);
      SelectHoldsLess(canon, ps, f);
      SortAtoms(path, canon(v), RangesAt(ps, path));
      SortAscending(RangesAt(ps, path));
      var sorted := SortRanges(RangesAt(ps, path));
      forall a ensures multiset(RangeAtoms(path, canon(v), sorted))[a] <= 1 {
        assert multiset(Atoms(canon, ps))[a] <= 1;
      }
      DistinctRangesApart(path, canon(v), sorted, 0);
    }
  }

  lemma {:induction false} NoRanges(ps: seq<Piece>, path: string)
    requires forall i | 0 <= i < |ps| && ps[i].path == path :: ps[i].Whole?
    ensures RangesAt(ps, path) == []
  {
    if ps == [] {
    } else {
      assert forall i | 0 <= i < |ps[1..]| :: ps[1..][i] == ps[i + 1];
      NoRanges(ps[1..], path);
    }
  }

  /** Pieces of the tree that hold no character twice are accepted as coverage, in any order. */
  lemma {:induction false} ApartIsAccepted(canon: Json -> string, root: Json, ps: seq<Piece>)
    requires DistinctKeys(root) && TextsNonEmpty(canon) && AllPlaced(canon, root, ps) && NoOverlap(canon, ps)
    ensures Acceptable(canon, root, ps)
  {
    hide Exact, Good, DistinctKeys, SortRanges, RangesAt, Apart, NoOverlap;
    forall i, j | 0 <= i < |ps| && 0 <= j < |ps| && i != j && ps[i].Whole? ensures ps[i].path != ps[j].path {
      if ps[i].path == ps[j].path { WholesStandAlone(canon, root, ps, i, j); }
    }
    forall i, j | 0 <= i < |ps| && 0 <= j < |ps| ensures !StartsWith(ps[j].path, ps[i].path + "/") {
      NothingBelow(canon, root, ps, i, j);
    }
    forall i | 0 <= i < |ps| ensures Apart(SortRanges(RangesAt(ps, ps[i].path)), 0) {
      RangesApart(canon, root, ps, i);
    }
  }

  // ---------------------------------------------------------------- what remains is again coverage

  lemma {:induction false} FragmentPlaced(
    canon: Json -> string, root: Json, ts: seq<string>, path: string, v: Json, start: nat, end: nat)
    requires Named(root, ts, path, v) && Leaf(v) && start < end <= |canon(v)|
    ensures Exact(canon, root, FragmentOf(canon, path, v, start, end))
    ensures Good(root, FragmentOf(canon, path, v, start, end))
  {
    NamedFacts(root, ts, path, v);
    WalkIsLookup(root, ts);
  }

  lemma {:induction false} GapsPlaced(
    canon: Json -> string, root: Json, ts: seq<string>, path: string, v: Json, rs: seq<Range>, cursor: nat, i: nat)
    requires Named(root, ts, path, v) && Leaf(v) && i < |Gaps(canon, path, v, rs, cursor)|
    ensures Exact(canon, root, Gaps(canon, path, v, rs, cursor)[i]) && Good(root, Gaps(canon, path, v, rs, cursor)[i])
  {
    hide Named, Leaf, Exact, Good, FragmentOf;
    if rs == [] {
      FragmentPlaced(canon, root, ts, path, v, cursor, |canon(v)|);
    } else {
      var first := cursor < rs[0].start <= |canon(v)|;
      if first { FragmentPlaced(canon, root, ts, path, v, cursor, rs[0].start); }
      if !first || i > 0 {
        var j := if first then i - 1 else i;
        assert Gaps(canon, path, v, rs, cursor)[i] == Gaps(canon, path, v, rs[1..], rs[0].end)[j];
        GapsPlaced(canon, root, ts, path, v, rs[1..], rs[0].end, j);
      }
    }
  }

  lemma {:induction false} RemainingPlaced(
    canon: Json -> string, root: Json, covered: seq<Piece>, ts: seq<string>, path: string, v: Json, i: nat)
    requires Node(canon, root, covered, ts, path, v) && i < |RemainingAt(canon, covered, path, v)|
    ensures Exact(canon, root, RemainingAt(canon, covered, path, v)[i])
    ensures Good(root, RemainingAt(canon, covered, path, v)[i])
    decreases v, 1, 0
  {
    assert Named(root, ts, path, v);
    if CoveredAt(covered, path) {
      FragmentNode(canon, root, covered, ts, path, v);
      GapsPlaced(canon, root, ts, path, v, SortRanges(RangesAt(covered, path)), 0, i);
    } else if !CoveredBelow(covered, path) {
      NamedFacts(root, ts, path, v);
      WalkIsLookup(root, ts);
    } else {
      RemainingKidsPlaced(canon, root, covered, ts, path, v, 0, i);
    }
  }

  lemma {:induction false} KidsLeft(canon: Json -> string, covered: seq<Piece>, path: string, v: Json, k: nat, i: nat)
    requires k <= |Kids(v)| && i < |RemainingKids(canon, covered, path, v, k)|
    ensures k < |Kids(v)|
  {
    hide Kids, RemainingAt;
  }

  lemma {:induction false} RemainingKidsPlaced(
    canon: Json -> string, root: Json, covered: seq<Piece>, ts: seq<string>, path: string, v: Json, k: nat, i: nat)
    requires Node(canon, root, covered, ts, path, v) && k <= |Kids(v)|
    requires i < |RemainingKids(canon, covered, path, v, k)|
    ensures Exact(canon, root, RemainingKids(canon, covered, path, v, k)[i])
    ensures Good(root, RemainingKids(canon, covered, path, v, k)[i])
    decreases v, 0, |Kids(v)| - k
  {
    hide *;
    KidsLeft(canon, covered, path, v, k, i);
    var kid := Kids(v)[k];
    KidNode(canon, root, covered, ts, path, v, k);
    KidsUnfold(canon, covered, path, v, k);
    var here := RemainingAt(canon, covered, path + "/" + kid.token, kid.value);
    if i < |here| {
      RemainingPlaced(canon, root, covered, ts + [kid.token], path + "/" + kid.token, kid.value, i);
    } else {
      RemainingKidsPlaced(canon, root, covered, ts, path, v, k + 1, i - |here|);
    }
  }

  lemma {:induction false} PiecesHaveAtoms(canon: Json -> string, root: Json, ps: seq<Piece>)
    requires TextsNonEmpty(canon) && AllPlaced(canon, root, ps)
    ensures ps != [] ==> Atoms(canon, ps) != []
  {
    if ps != [] {
      assert Exact(canon, root, ps[0]);
      var a := PieceHasAtom(canon, root, ps[0]);
      assert Atoms(canon, ps) == PieceAtoms(canon, ps[0]) + Atoms(canon, ps[1..]);
    }
  }

  lemma {:induction false} RemainingIsPlaced(canon: Json -> string, root: Json, covered: seq<Piece>, rem: seq<Piece>)
    requires DistinctKeys(root) && Remaining(canon, root, covered) == Some(rem) && AllGood(root, covered)
    ensures AllPlaced(canon, root, rem)
  {
    assert Node(canon, root, covered, [], "", root);
    hide Node, Exact, Good, RemainingAt;
    forall i | 0 <= i < |rem| ensures Exact(canon, root, rem[i]) && Good(root, rem[i]) {
      RemainingPlaced(canon, root, covered, [], "", root, i);
    }
  }

  lemma {:induction false} RootNamed(root: Json)
    requires DistinctKeys(root)
    ensures Named(root, [], "", root)
  {
  }

  lemma {:induction false} PlacedIsGood(canon: Json -> string, root: Json, ps: seq<Piece>)
    requires AllPlaced(canon, root, ps)
    ensures AllGood(root, ps)
  {
    hide Exact, Good;
  }

  lemma {:induction false} CompleteIsApart(canon: Json -> string, root: Json, ps: seq<Piece>)
    requires DistinctKeys(root) && multiset(Atoms(canon, ps)) == multiset(ValueAtoms(canon, "", root))
    ensures NoOverlap(canon, ps)
  {
    RootNamed(root);
    hide Named, Atoms, ValueAtoms, DistinctKeys;
    forall a ensures multiset(Atoms(canon, ps))[a] <= 1 { NodeAtomsDistinct(canon, root, [], "", root, a); }
  }

  lemma {:induction false} AcceptedRemains(canon: Json -> string, root: Json, ps: seq<Piece>)
    requires Acceptable(canon, root, ps)
    ensures Remaining(canon, root, ps) == Some(RemainingAt(canon, ps, "", root))
  {
    hide Acceptable, RemainingAt;
  }

  /**
   * Coverage is complete exactly when nothing remains: any placed pieces, in any order, that hold the
   * characters of the whole value once each are accepted and leave nothing uncovered.
   */
  lemma {:induction false} CompleteIffNothingRemains(canon: Json -> string, root: Json, ps: seq<Piece>)
    requires DistinctKeys(root) && TextsNonEmpty(canon) && AllPlaced(canon, root, ps)
    ensures Remaining(canon, root, ps) == Some([]) <==>
      multiset(Atoms(canon, ps)) == multiset(ValueAtoms(canon, "", root))
  {
    hide *;
    PlacedIsGood(canon, root, ps);
    if Remaining(canon, root, ps) == Some([]) {
      CoveredPlusRemaining(canon, root, ps, []);
      AtomsNone(canon);
    }
    if multiset(Atoms(canon, ps)) == multiset(ValueAtoms(canon, "", root)) {
      CompleteIsApart(canon, root, ps);
      ApartIsAccepted(canon, root, ps);
      AcceptedRemains(canon, root, ps);
      var rem := RemainingAt(canon, ps, "", root);
      CoveredPlusRemaining(canon, root, ps, rem);
      assert multiset(Atoms(canon, rem)) == multiset{};
      EmptyBag(Atoms(canon, rem));
      RemainingIsPlaced(canon, root, ps, rem);
      PiecesHaveAtoms(canon, root, rem);
    }
  }

  lemma {:induction false} EmptyBag(s: seq<Atom>)
    requires multiset(s) == multiset{}
    ensures s == []
  {
    assert |multiset(s)| == |s|;
  }

  /** The covered pieces together with what remains are accepted, and subtracting them leaves nothing. */
  lemma {:induction false} RemainingCompletes(canon: Json -> string, root: Json, covered: seq<Piece>, rem: seq<Piece>)
    requires DistinctKeys(root) && TextsNonEmpty(canon)
    requires Remaining(canon, root, covered) == Some(rem) && AllGood(root, covered)
    ensures Remaining(canon, root, covered + rem) == Some([])
  {
    AcceptedIsPlaced(canon, root, covered);
    hide *;
    CoveredPlusRemaining(canon, root, covered, rem);
    RemainingIsPlaced(canon, root, covered, rem);
    PlacedConcat(canon, root, covered, rem);
    AtomsConcat(canon, covered, rem);
    CompleteIffNothingRemains(canon, root, covered + rem);
  }

  lemma {:induction false} AcceptedIsPlaced(canon: Json -> string, root: Json, covered: seq<Piece>)
    requires Remaining(canon, root, covered).Some? && AllGood(root, covered)
    ensures AllPlaced(canon, root, covered)
  {
    hide Exact, Good, RemainingAt;
  }

  lemma {:induction false} PlacedConcat(canon: Json -> string, root: Json, a: seq<Piece>, b: seq<Piece>)
    requires AllPlaced(canon, root, a) && AllPlaced(canon, root, b)
    ensures AllPlaced(canon, root, a + b)
  {
    hide Exact, Good;
  }
}
