/** Splitting keeps every character in place, and which coverage the subtraction treats exactly. */
module CoverageSplit {
  import opened Common
  import opened Paths
  import opened Coverage
  import opened CoverageExact
  import opened CoverageResume

  // ---------------------------------------------------------------- one split

  /** A list or an object that holds something. */
  predicate Opens(v: Json) {
    (v.List? && v.items != []) || (v.Dict? && v.fields != [])
  }

  /** The pieces are the elements or fields under their written names, each whole and in order. */
  predicate OpenedInto(p: Piece, pieces: seq<Piece>)
    requires p.Whole? && Opens(p.value)
  {
    match p.value
    case List(items) =>
      && |pieces| == |items|
      && forall k | 0 <= k < |items| :: pieces[k] == Whole(p.path + "/" + Decimal(k), items[k])
    case Dict(fields) =>
      && |pieces| == |fields|
      && forall k | 0 <= k < |fields| :: pieces[k] == Whole(p.path + "/" + Escape(fields[k].key), fields[k].value)
  }

  function TextOf(canon: Json -> string, p: Piece): string {
    if p.Whole? then canon(p.value) else p.text
  }

  function StartOf(p: Piece): nat {
    if p.Whole? then 0 else p.start
  }

  /** The pieces are the two halves of the text, the first no longer than the second, where they stand in it. */
  predicate HalvedInto(canon: Json -> string, p: Piece, pieces: seq<Piece>) {
    && |pieces| == 2 && pieces[0].Fragment? && pieces[1].Fragment?
    && pieces[0].text + pieces[1].text == TextOf(canon, p)
    && 0 < |pieces[0].text| <= |pieces[1].text| <= |pieces[0].text| + 1
    && pieces[0].start == StartOf(p) && pieces[0].end == pieces[1].start == StartOf(p) + |pieces[0].text|
    && pieces[1].end == StartOf(p) + |TextOf(canon, p)|
    && forall h | h in pieces :: h.path == p.path && h.source == if p.Whole? then p.value else p.source
  }

  /** Not a container that opens, and of less than two characters. */
  predicate TooShort(canon: Json -> string, p: Piece) {
    !(p.Whole? && Opens(p.value)) && |TextOf(canon, p)| < 2
  }

  lemma {:induction false} KidPiecesAre(path: string, ks: seq<Kid>)
    ensures |KidPieces(path, ks)| == |ks|
    ensures forall k | 0 <= k < |ks| :: KidPieces(path, ks)[k] == Whole(path + "/" + ks[k].token, ks[k].value)
  {
    if ks != [] { KidPiecesAre(path, ks[1..]); }
  }

  /** What is split into what: everything that holds more than one character of text, and every open container. */
  lemma {:induction false} SplitExactly(canon: Json -> string, p: Piece)
    ensures Split(canon, p).None? <==> TooShort(canon, p)
    ensures Split(canon, p).Some? ==>
      if p.Whole? && Opens(p.value)
      then OpenedInto(p, Split(canon, p).value) else HalvedInto(canon, p, Split(canon, p).value)
  {
    hide Decimal, Escape;
    if p.Whole? && Opens(p.value) {
      KidPiecesAre(p.path, Kids(p.value));
      assert !Leaf(p.value);
    } else {
      assert p.Whole? ==> Leaf(p.value);
      var text := TextOf(canon, p);
      assert text[..|text| / 2] + text[|text| / 2..] == text;
    }
  }

  /** Splitting makes progress: no piece is split into itself, nor into nothing. */
  lemma {:induction false} SplitMoves(canon: Json -> string, p: Piece)
    requires Split(canon, p).Some?
    ensures Split(canon, p).value != [] && Split(canon, p).value != [p]
  {
    SplitExactly(canon, p);
    if p.Whole? && Opens(p.value) {
      var first := Split(canon, p).value[0];
      assert |first.path| > |p.path|;
    }
    hide Split, TooShort;
  }

  lemma {:induction false} KidPiecesAtoms(canon: Json -> string, path: string, v: Json, k: nat)
    requires k <= |Kids(v)|
    ensures Atoms(canon, KidPieces(path, Kids(v)[k..])) == KidAtoms(canon, path, v, k)
    decreases |Kids(v)| - k
  {
    if k == |Kids(v)| {
    } else {
      KidPiecesAtoms(canon, path, v, k + 1);
      assert Kids(v)[k..][1..] == Kids(v)[k + 1..];
      assert KidPieces(path, Kids(v)[k..]) ==
        [Whole(path + "/" + Kids(v)[k].token, Kids(v)[k].value)] + KidPieces(path, Kids(v)[k + 1..]);
    }
  }

  lemma {:induction false} KidPiecesHead(path: string, ks: seq<Kid>, k: nat)
    requires k < |ks|
    ensures KidPieces(path, ks[k..]) == [Whole(path + "/" + ks[k].token, ks[k].value)] + KidPieces(path, ks[k + 1..])
  {
    assert ks[k..][1..] == ks[k + 1..];
  }

  lemma {:induction false} KidPiecesPlaced(
    canon: Json -> string, root: Json, ts: seq<string>, path: string, v: Json, k: nat)
    requires Named(root, ts, path, v) && k <= |Kids(v)|
    ensures AllPlaced(canon, root, KidPieces(path, Kids(v)[k..]))
    decreases |Kids(v)| - k
  {
    if k == |Kids(v)| {
    } else {
      var kid, rest := Kids(v)[k], KidPieces(path, Kids(v)[k + 1..]);
      hide *;
      KidPiecesPlaced(canon, root, ts, path, v, k + 1);
      KidPiecesHead(path, Kids(v), k);
      NamedKid(root, ts, path, v, k);
      WholePlaced(canon, root, ts + [kid.token], path + "/" + kid.token, kid.value);
      OnePlaced(canon, root, Whole(path + "/" + kid.token, kid.value));
      PlacedConcat(canon, root, [Whole(path + "/" + kid.token, kid.value)], rest);
    }
  }

  lemma {:induction false} OnePlaced(canon: Json -> string, root: Json, p: Piece)
    requires Exact(canon, root, p) && Good(root, p)
    ensures AllPlaced(canon, root, [p])
  {
    hide Exact, Good;
  }

  lemma {:induction false} WholePlaced(canon: Json -> string, root: Json, ts: seq<string>, path: string, v: Json)
    requires Named(root, ts, path, v)
    ensures Exact(canon, root, Whole(path, v)) && Good(root, Whole(path, v))
  {
    NamedFacts(root, ts, path, v);
    WalkIsLookup(root, ts);
  }

  lemma {:induction false} HalvesAtoms(path: string, text: string, start: nat, middle: nat, end: nat)
    requires start <= middle <= end <= |text|
    ensures TextAtoms(path, text[start..end], start)
         == TextAtoms(path, text[start..middle], start) + TextAtoms(path, text[middle..end], middle)
  {
    hide TextAtoms;
  }

  lemma {:induction false} SplitText(
    canon: Json -> string, root: Json, ts: seq<string>, path: string, v: Json, start: nat, middle: nat, end: nat)
    requires Named(root, ts, path, v) && Leaf(v) && start < middle < end <= |canon(v)|
    ensures var qs := [FragmentOf(canon, path, v, start, middle), FragmentOf(canon, path, v, middle, end)];
      && AllPlaced(canon, root, qs)
      && Atoms(canon, qs) == TextAtoms(path, canon(v)[start..end], start)
  {
    HalvesAtoms(path, canon(v), start, middle, end);
    FragmentPlaced(canon, root, ts, path, v, start, middle);
    FragmentPlaced(canon, root, ts, path, v, middle, end);
    var p, q := FragmentOf(canon, path, v, start, middle), FragmentOf(canon, path, v, middle, end);
    hide Exact, Good, Named, Leaf, TextAtoms, Atoms;
    assert [p, q] == [p] + [q];
    AtomsConcat(canon, [p], [q]);
    AtomsOne(canon, p);
    AtomsOne(canon, q);
  }

  lemma {:induction false} SplitContainer(canon: Json -> string, root: Json, ts: seq<string>, path: string, v: Json)
    requires Named(root, ts, path, v) && !Leaf(v)
    ensures AllPlaced(canon, root, KidPieces(path, Kids(v)))
    ensures Atoms(canon, KidPieces(path, Kids(v))) == ValueAtoms(canon, path, v)
  {
    assert Kids(v)[0..] == Kids(v);
    KidPiecesAtoms(canon, path, v, 0);
    KidPiecesPlaced(canon, root, ts, path, v, 0);
  }

  /** Halving the text of a fragment is halving its range. */
  lemma {:induction false} HalfRange(text: string, start: nat, end: nat, m: nat)
    requires start <= end <= |text| && m <= end - start
    ensures text[start..end][..m] == text[start..start + m] && text[start..end][m..] == text[start + m..end]
  {
  }

  lemma {:induction false} SplitLeafShape(
    canon: Json -> string, p: Piece, v: Json, qs: seq<Piece>, start: nat, middle: nat, end: nat)
    requires Leaf(v) && Split(canon, p) == Some(qs) && start < end <= |canon(v)|
    requires (p == Whole(p.path, v) && start == 0 && end == |canon(v)|) || p == FragmentOf(canon, p.path, v, start, end)
    requires middle == start + (end - start) / 2
    ensures start < middle < end
    ensures qs == [FragmentOf(canon, p.path, v, start, middle), FragmentOf(canon, p.path, v, middle, end)]
  {
    hide Kids;
    assert canon(v)[0..|canon(v)|] == canon(v);
    HalfRange(canon(v), start, end, (end - start) / 2);
  }

  /** A split replaces a piece by pieces of the same tree holding the same characters in the same order. */
  lemma {:induction false} SplitKeepsAtoms(canon: Json -> string, root: Json, p: Piece, qs: seq<Piece>)
    requires DistinctKeys(root) && Exact(canon, root, p) && Good(root, p) && Split(canon, p) == Some(qs)
    ensures AllPlaced(canon, root, qs)
    ensures Atoms(canon, qs) == PieceAtoms(canon, p)
  {
    var ts, v := GoodNamed(canon, root, p);
    hide Exact, Good, Lookup, AllPlaced, Atoms, Named, DistinctKeys, TextAtoms, Kids, KidPieces, Walk, Tokens,
      SplitSlash, Join;
    if p.Whole? && !Leaf(v) {
      SplitContainer(canon, root, ts, p.path, v);
    } else {
      var start, end := if p.Whole? then 0 else p.start, if p.Whole? then |canon(v)| else p.end;
      assert |canon(v)| >= 2 && start < end;
      assert canon(v)[0..|canon(v)|] == canon(v);
      var middle := start + (end - start) / 2;
      SplitLeafShape(canon, p, v, qs, start, middle, end);
      hide Split, FragmentOf, Leaf;
      SplitText(canon, root, ts, p.path, v, start, middle, end);
      LeafAtoms(canon, p, v, start, end);
    }
  }

  lemma {:induction false} LeafAtoms(canon: Json -> string, p: Piece, v: Json, start: nat, end: nat)
    requires Leaf(v) && start <= end <= |canon(v)|
    requires (p == Whole(p.path, v) && start == 0 && end == |canon(v)|) || p == FragmentOf(canon, p.path, v, start, end)
    ensures PieceAtoms(canon, p) == TextAtoms(p.path, canon(v)[start..end], start)
  {
    assert canon(v)[0..|canon(v)|] == canon(v);
  }

  // ---------------------------------------------------------------- any sequence of splits

  /** Splits the piece at each index in turn. */
  function Splits(canon: Json -> string, ps: seq<Piece>, script: seq<nat>): Option<seq<Piece>>
    decreases |script|
  {
    if script == [] then Some(ps)
    else if script[0] >= |ps| then None
    else
      match Split(canon, ps[script[0]])
      case None => None
      case Some(qs) => Splits(canon, ps[..script[0]] + qs + ps[script[0] + 1..], script[1..])
  }

  lemma {:induction false} ReplaceKeeps(canon: Json -> string, root: Json, ps: seq<Piece>, i: nat, qs: seq<Piece>)
    requires i < |ps| && AllPlaced(canon, root, ps) && AllPlaced(canon, root, qs)
    requires Atoms(canon, qs) == PieceAtoms(canon, ps[i])
    ensures AllPlaced(canon, root, ps[..i] + qs + ps[i + 1..])
    ensures Atoms(canon, ps[..i] + qs + ps[i + 1..]) == Atoms(canon, ps)
  {
    hide Exact, Good, PieceAtoms, Atoms;
    assert ps == ps[..i] + [ps[i]] + ps[i + 1..];
    AtomsConcat(canon, ps[..i] + qs, ps[i + 1..]);
    AtomsConcat(canon, ps[..i], qs);
    AtomsConcat(canon, ps[..i] + [ps[i]], ps[i + 1..]);
    AtomsConcat(canon, ps[..i], [ps[i]]);
    AtomsOne(canon, ps[i]);
  }

  lemma {:induction false} SplitsKeepAtoms(
      canon: Json -> string, root: Json, ps: seq<Piece>, script: seq<nat>, ps': seq<Piece>)
    requires DistinctKeys(root) && AllPlaced(canon, root, ps) && Splits(canon, ps, script) == Some(ps')
    ensures AllPlaced(canon, root, ps') && Atoms(canon, ps') == Atoms(canon, ps)
    decreases |script|
  {
    if script == [] {
    } else {
      var i := script[0];
      var qs := Split(canon, ps[i]).value;
      assert Exact(canon, root, ps[i]) && Good(root, ps[i]);
      hide Split, Exact, Good, Atoms, PieceAtoms;
      SplitKeepsAtoms(canon, root, ps[i], qs);
      ReplaceKeeps(canon, root, ps, i, qs);
      SplitsKeepAtoms(canon, root, ps[..i] + qs + ps[i + 1..], script[1..], ps');
    }
  }

  lemma {:induction false} TakeOne(some: seq<Piece>, all: seq<Piece>) returns (i: nat)
    requires some != [] && multiset(some) <= multiset(all)
    ensures i < |all| && all[i] == some[0]
    ensures multiset(some[1..]) <= multiset(all[..i] + all[i + 1..])
  {
    assert some[0] in multiset(some) && some[0] in multiset(all);
    i :| 0 <= i < |all| && all[i] == some[0];
    var rest := all[..i] + all[i + 1..];
    WithoutOne(all, i);
    assert some[..0] + some[1..] == some[1..];
    WithoutOne(some, 0);
    BagTail(multiset(some[1..]), multiset(rest), some[0]);
  }

  lemma {:induction false} BagTail(a: multiset<Piece>, b: multiset<Piece>, x: Piece)
    requires a + multiset{x} <= b + multiset{x}
    ensures a <= b
  {
    forall y ensures a[y] <= b[y] { assert (a + multiset{x})[y] <= (b + multiset{x})[y]; }
  }

  lemma {:induction false} WithoutOne(ps: seq<Piece>, i: nat)
    requires i < |ps|
    ensures multiset(ps) == multiset(ps[..i] + ps[i + 1..]) + multiset{ps[i]}
  {
    assert ps == ps[..i] + [ps[i]] + ps[i + 1..];
  }

  lemma {:induction false} FewerPiecesFewerAtoms(canon: Json -> string, some: seq<Piece>, all: seq<Piece>)
    requires multiset(some) <= multiset(all)
    ensures multiset(Atoms(canon, some)) <= multiset(Atoms(canon, all))
  {
    if some != [] {
      var i := TakeOne(some, all);
      FewerPiecesFewerAtoms(canon, some[1..], all[..i] + all[i + 1..]);
      hide PieceAtoms;
      assert multiset(Atoms(canon, some)) == multiset(PieceAtoms(canon, some[0])) + multiset(Atoms(canon, some[1..]));
      MovePiece(canon, all, i);
    } else {
      AtomsNone(canon);
    }
  }

  lemma {:induction false} MovePiece(canon: Json -> string, all: seq<Piece>, i: nat)
    requires i < |all|
    ensures multiset(Atoms(canon, all)) ==
      multiset(PieceAtoms(canon, all[i])) + multiset(Atoms(canon, all[..i] + all[i + 1..]))
  {
    hide PieceAtoms, Atoms;
    assert all == all[..i] + [all[i]] + all[i + 1..];
    AtomsConcat(canon, all[..i] + [all[i]], all[i + 1..]);
    AtomsConcat(canon, all[..i], [all[i]]);
    AtomsConcat(canon, all[..i], all[i + 1..]);
    AtomsOne(canon, all[i]);
  }

  /**
   * Any selection, in any order, of the pieces that repeated splitting makes of a value is accepted as
   * coverage; with what remains it holds every character once, and together they leave nothing.
   */
  lemma {:induction false} SplitPiecesAreExactCoverage(
    canon: Json -> string, root: Json, script: seq<nat>, all: seq<Piece>, covered: seq<Piece>)
    returns (rem: seq<Piece>)
    requires DistinctKeys(root) && TextsNonEmpty(canon)
    requires Splits(canon, [Whole("", root)], script) == Some(all) && multiset(covered) <= multiset(all)
    ensures Remaining(canon, root, covered) == Some(rem)
    ensures multiset(Atoms(canon, covered)) + multiset(Atoms(canon, rem)) == multiset(ValueAtoms(canon, "", root))
    ensures Remaining(canon, root, covered + rem) == Some([])
  {
    assert Named(root, [], "", root);
    WholePlaced(canon, root, [], "", root);
    AtomsOne(canon, Whole("", root));
    assert AllPlaced(canon, root, [Whole("", root)]);
    hide Exact, Good, Splits, Atoms, PieceAtoms, RemainingAt, Acceptable;
    SplitsKeepAtoms(canon, root, [Whole("", root)], script, all);
    FewerPiecesFewerAtoms(canon, covered, all);
    SelectionPlaced(canon, root, covered, all);
    assert PieceAtoms(canon, Whole("", root)) == ValueAtoms(canon, "", root) by { WholeAtoms(canon, "", root); }
    forall a ensures multiset(Atoms(canon, covered))[a] <= 1 { NodeAtomsDistinct(canon, root, [], "", root, a); }
    ApartIsAccepted(canon, root, covered);
    rem := RemainingAt(canon, covered, "", root);
    CoveredPlusRemaining(canon, root, covered, rem);
    RemainingCompletes(canon, root, covered, rem);
  }

  lemma {:induction false} WholeAtoms(canon: Json -> string, path: string, v: Json)
    ensures PieceAtoms(canon, Whole(path, v)) == ValueAtoms(canon, path, v)
  {
  }

  lemma {:induction false} SelectionPlaced(canon: Json -> string, root: Json, some: seq<Piece>, all: seq<Piece>)
    requires AllPlaced(canon, root, all) && multiset(some) <= multiset(all)
    ensures AllPlaced(canon, root, some)
  {
    hide Exact, Good;
    forall i | 0 <= i < |some| ensures Exact(canon, root, some[i]) && Good(root, some[i]) {
      assert some[i] in multiset(some) && some[i] in multiset(all);
      var j :| 0 <= j < |all| && all[j] == some[i];
    }
  }

  // ---------------------------------------------------------------- other accepted coverage

  lemma {:induction false} LookupDistinct(v: Json, ts: seq<string>)
    requires DistinctKeys(v) && Lookup(v, ts).Some?
    ensures DistinctKeys(Lookup(v, ts).value)
    decreases |ts|
  {
    if ts == [] {
    } else {
      var child := Child(v, Unescape(ts[0])).value;
      ChildIsKid(v, Unescape(ts[0]));
      LookupDistinct(child, ts[1..]);
    }
  }

  lemma {:induction false} ChildIsKid(v: Json, key: string)
    requires Child(v, key).Some?
    ensures exists k :: 0 <= k < |Kids(v)| && Kids(v)[k].value == Child(v, key).value
  {
    if v.List? {
      var n := ParseInt(key).value;
      var k := if n >= 0 then n else |v.items| + n;
      assert Kids(v)[k].value == v.items[k];
    } else {
      var k := FieldIndex(v.fields, key).value;
      assert Kids(v)[k].value == v.fields[k].value;
    }
  }

  /** The atoms of a value sit below the path it was given, whatever that path is. */
  lemma {:induction false} AtomsBelow(canon: Json -> string, path: string, v: Json, a: Atom)
    requires PathShape(path) && DistinctKeys(v) && a in ValueAtoms(canon, path, v)
    ensures PathShape(a.path) && Tokens(path) <= Tokens(a.path)
    decreases v, 1, 0
  {
    if !Leaf(v) { KidAtomsBelow(canon, path, v, 0, a); }
  }

  lemma {:induction false} KidAtomsBelow(canon: Json -> string, path: string, v: Json, k: nat, a: Atom)
    requires PathShape(path) && DistinctKeys(v) && k <= |Kids(v)| && a in KidAtoms(canon, path, v, k)
    ensures PathShape(a.path) && Tokens(path) <= Tokens(a.path)
    decreases v, 0, |Kids(v)| - k
  {
    hide SplitSlash, ValueAtoms;
    var kid := Kids(v)[k];
    if a in ValueAtoms(canon, path + "/" + kid.token, kid.value) {
      AtomsBelow(canon, path + "/" + kid.token, kid.value, a);
      SplitConcat(path, kid.token);
      assert Tokens(path + "/" + kid.token) == Tokens(path) + SplitSlash(kid.token);
    } else {
      KidAtomsBelow(canon, path, v, k + 1, a);
    }
  }

  /** A piece under a path that splitting never writes, or of a container's text, holds a foreign character. */
  lemma {:induction false} BadPieceHoldsForeign(canon: Json -> string, root: Json, p: Piece) returns (a: Atom)
    requires DistinctKeys(root) && TextsNonEmpty(canon) && Exact(canon, root, p) && !Good(root, p)
    ensures a in PieceAtoms(canon, p) && !AtLeaf(canon, root, a)
  {
    a := PieceHasAtom(canon, root, p);
    if p.Whole? {
      LookupDistinct(root, Tokens(p.path));
      hide SplitSlash, Tokens, Lookup, DistinctKeys;
      AtomsBelow(canon, p.path, p.value, a);
      if AtLeaf(canon, root, a) {
        var tp, ta := Tokens(p.path), Tokens(a.path);
        assert ta == tp + ta[|tp|..];
        WalkConcat(root, tp, ta[|tp|..]);
      }
    }
  }

  /**
   * Accepted coverage is subtracted exactly if and only if every covered path is the one splitting writes
   * and fragments are of leaf text.
   */
  lemma {:induction false} ExactIffWellNamed(canon: Json -> string, root: Json, covered: seq<Piece>, rem: seq<Piece>)
    requires DistinctKeys(root) && TextsNonEmpty(canon) && Remaining(canon, root, covered) == Some(rem)
    ensures multiset(Atoms(canon, covered)) + multiset(Atoms(canon, rem)) == multiset(ValueAtoms(canon, "", root))
       <==> AllGood(root, covered)
  {
    if AllGood(root, covered) {
      CoveredPlusRemaining(canon, root, covered, rem);
    } else {
      var i :| 0 <= i < |covered| && !Good(root, covered[i]);
      assert Exact(canon, root, covered[i]);
      RootNamed(root);
      hide *;
      var a := BadPieceHoldsForeign(canon, root, covered[i]);
      HeldOnce(canon, covered, i, a);
      if a in ValueAtoms(canon, "", root) { NodeAtomsAtLeaves(canon, root, [], "", root, a); }
      assert multiset(ValueAtoms(canon, "", root))[a] == 0;
    }
  }

  lemma {:induction false} AliasTokens()
    ensures Tokens("/00") == ["00"] && PathShape("/00")
  {
    SplitSlashFree("00");
    assert "/00" == ['/'] + "00";
    SplitHead('/', "00");
  }

  lemma {:induction false} AliasIndex()
    ensures ParseInt(Unescape("00")) == Some(0)
  {
    MarkFree("00", '1', '/');
    MarkFree("00", '0', '~');
    assert ParseDigits("", 0, true) == Some(0);
    assert "00"[1..] == "0" && "0"[1..] == "";
    assert ParseDigits("0", 0, true) == Some(0);
    assert ParseDigits("00", 0, false) == Some(0);
  }

  lemma {:induction false} AliasAccepted(canon: Json -> string)
    ensures Acceptable(canon, List([Scalar("1")]), [Whole("/00", Scalar("1"))])
  {
    var root, item := List([Scalar("1")]), Scalar("1");
    var covered := [Whole("/00", item)];
    AliasTokens();
    AliasIndex();
    hide ParseInt, Unescape, Tokens;
    assert Lookup(root, ["00"]) == Some(item) by {
      assert ["00"][1..] == [];
      assert Lookup(item, []) == Some(item);
    }
    assert Exact(canon, root, covered[0]);
    assert RangesAt(covered, "/00") == [] by { assert RangesAt(covered[1..], "/00") == []; }
  }

  lemma {:induction false} AliasRemains(canon: Json -> string)
    ensures var root, item := List([Scalar("1")]), Scalar("1");
      RemainingAt(canon, [Whole("/00", item)], "", root) == [Whole("/0", item)]
  {
    var root, item := List([Scalar("1")]), Scalar("1");
    var covered := [Whole("/00", item)];
    assert Decimal(0) == "0";
    assert Kids(root) == [Kid("0", item)];
    assert "" + "/" + "0" == "/0";
    assert !CoveredAt(covered, "") && CoveredBelow(covered, "") by { assert StartsWith(covered[0].path, "" + "/"); }
    assert !CoveredAt(covered, "/0") && !CoveredBelow(covered, "/0") by {
      assert ("/0" + "/")[2] != covered[0].path[2];
    }
    assert RemainingAt(canon, covered, "/0", item) == [Whole("/0", item)];
    hide CoveredAt, CoveredBelow, Decimal;
    assert RemainingKids(canon, covered, "", root, 1) == [];
    assert RemainingKids(canon, covered, "", root, 0) == [Whole("/0", item)] + [] == [Whole("/0", item)];
  }

  /**
   * The condition is needed: `int` reads `00` as an index, so the record named `/00` is accepted as
   * coverage of item 0, and item 0 is still returned as remaining under its own name.
   */
  lemma {:induction false} AliasedIndexIsCoveredTwice(canon: Json -> string)
    ensures Remaining(canon, List([Scalar("1")]), [Whole("/00", Scalar("1"))]) == Some([Whole("/0", Scalar("1"))])
  {
    hide Acceptable, RemainingAt;
    AliasAccepted(canon);
    AliasRemains(canon);
  }
}
